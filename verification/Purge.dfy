/** Replacing the history database by an empty one, on a directory where any operation may
    fail: names are bound to files, hard links bind a second name, a rename is atomic. */
module Purge {
  import opened Common

  datatype Suffix = Wal | Shm
  datatype Name = Main | Temp(id: nat) | Side(of: Name, suffix: Suffix)

  /** The files a name can reach: the database with its history, one of its sidecars, a complete
      empty database, a file still being prepared, or somebody else's. */
  datatype File = Original | OriginalSide(suffix: Suffix) | Emptied | Scratch | Foreign(id: nat)

  type Names = map<Name, File>

  function Get(names: Names, n: Name): Option<File> {
    if n in names then Some(names[n]) else None
  }

  /** The canonical name is bound to a complete database, old or new. */
  predicate Safe(names: Names) {
    Main in names && (names[Main] == Original || names[Main] == Emptied)
  }

  /** Some name reaches the history. */
  predicate Reaches(names: Names) {
    exists n <- names :: names[n] == Original
  }

  /** The directory before a purge: the database, perhaps its sidecars, and other people's files;
      temporary names from `serial` on are free. */
  ghost predicate Untouched(names: Names, serial: nat) {
    Pristine(names) && Free(names, serial)
  }

  predicate Pristine(names: Names) {
    && Get(names, Main) == Some(Original)
    && (forall n <- names :: n != Main ==>
        names[n].Foreign? || (n.Side? && n == Side(Main, n.suffix) && names[n] == OriginalSide(n.suffix)))
    && (forall s: Suffix :: Side(Main, s) in names ==> names[Side(Main, s)] == OriginalSide(s))
  }

  /** The directory after a purge: the database is empty, its sidecars are gone. */
  function PurgedOf(names: Names): Names {
    (names - {Side(Main, Wal), Side(Main, Shm)})[Main := Emptied]
  }

  /** The links to the database's sidecars. */
  datatype Saved = Saved(wal: Option<Name>, shm: Option<Name>) {
    function Of(s: Suffix): Option<Name> {
      if s.Wal? then wal else shm
    }

    function With(s: Suffix, n: Option<Name>): Saved {
      if s.Wal? then Saved(n, shm) else Saved(wal, n)
    }
  }

  const NONE_SAVED := Saved(None, None)

  lemma PurgedMeans(names: Names)
    requires Main in names
    ensures forall n :: n in PurgedOf(names) <==> n in names && n != Side(Main, Wal) && n != Side(Main, Shm)
    ensures forall n <- PurgedOf(names) :: PurgedOf(names)[n] == if n == Main then Emptied else names[n]
  {
  }

  /** The local variables of a purge. */
  datatype Book = Book(replacement: Option<Name>, backup: Option<Name>, recovery: Option<Name>,
                       saved: Saved, replaced: bool, verified: bool)
  {
    predicate Nameless() {
      replacement.None? && backup.None? && recovery.None? && saved == NONE_SAVED
    }
  }

  /** What else has been done to the directory: sidecars unlinked, saved sidecars unlinked, the
      database put back, and a reserved name that could not be given back. */
  datatype Done = Done(cleared: set<Suffix>, dropped: set<Suffix>, restored: bool, leak: Option<Name>)

  /** What a name should be bound to. */
  function Expected(base: Names, book: Book, done: Done, n: Name): Option<File> {
    match n
    case Main => Some(if book.replaced && !done.restored then Emptied else Original)
    case Side(_, s) => if n == Side(Main, s) && s in done.cleared then None else Get(base, n)
    case Temp(_) =>
      if book.replacement == Some(n) then Some(Emptied)
      else if book.backup == Some(n) || book.recovery == Some(n) then Some(Original)
      else if book.saved.wal == Some(n) then (if Wal in done.dropped then None else Some(OriginalSide(Wal)))
      else if book.saved.shm == Some(n) then (if Shm in done.dropped then None else Some(OriginalSide(Shm)))
      else if done.leak == Some(n) then Some(Scratch)
      else Get(base, n)
  }

  predicate NewTemp(base: Names, serial: nat, n: Option<Name>) {
    n.Some? ==> n.value.Temp? && n.value.id < serial && n.value !in base
  }

  predicate Differ(a: Option<Name>, b: Option<Name>) {
    a.Some? ==> a != b
  }

  /** The temporary names of a purge are its own and all different. */
  predicate Apart(base: Names, serial: nat, book: Book, done: Done) {
    && NewTemp(base, serial, book.replacement) && NewTemp(base, serial, book.backup)
       && NewTemp(base, serial, book.recovery)
    && NewTemp(base, serial, book.saved.wal) && NewTemp(base, serial, book.saved.shm)
       && NewTemp(base, serial, done.leak)
    && Differ(book.replacement, book.backup) && Differ(book.replacement, book.recovery)
       && Differ(book.backup, book.recovery)
    && Differ(book.saved.wal, book.replacement) && Differ(book.saved.wal, book.backup)
       && Differ(book.saved.wal, book.recovery)
    && Differ(book.saved.shm, book.replacement) && Differ(book.saved.shm, book.backup)
       && Differ(book.saved.shm, book.recovery)
    && Differ(book.saved.wal, book.saved.shm)
    && Differ(done.leak, book.replacement) && Differ(done.leak, book.backup) && Differ(done.leak, book.recovery)
    && Differ(done.leak, book.saved.wal) && Differ(done.leak, book.saved.shm)
  }

  ghost predicate Matches(names: Names, base: Names, book: Book, done: Done) {
    forall n :: Get(names, n) == Expected(base, book, done, n)
  }

  ghost predicate Free(base: Names, serial: nat) {
    && (forall id: nat :: id >= serial ==> Temp(id) !in base)
    && (forall id: nat, s: Suffix :: id >= serial ==> Side(Temp(id), s) !in base)
  }

  lemma ReachesBy(names: Names, n: Name)
    requires n in names && names[n] == Original
    ensures Reaches(names)
  {
  }

  lemma LeakMatches(names: Names, base: Names, book: Book, done: Done, serial: nat, t: Name)
    requires Matches(names, base, book, done) && Apart(base, serial, book, done) && done.leak.None? && t == Temp(serial)
    requires Free(base, serial)
    ensures Matches(names[t := Scratch], base, book, done.(leak := Some(t)))
    ensures Apart(base, serial + 1, book, done.(leak := Some(t)))
  {
    forall n
      ensures Get(names[t := Scratch], n) == Expected(base, book, done.(leak := Some(t)), n)
    {
      assert Get(names, n) == Expected(base, book, done, n);
    }
  }

  /** A directory that differs from an earlier one only in the names of one temporary database. */
  ghost predicate Around(names: Names, t: Name, before: Names) {
    && t.Temp? && t !in before && Side(t, Wal) !in before && Side(t, Shm) !in before
    && Get(before, Main) == Some(Original)
    && forall n :: n != t && n != Side(t, Wal) && n != Side(t, Shm) ==> Get(names, n) == Get(before, n)
  }

  lemma AroundStart(before: Names, t: Name)
    requires t.Temp? && t !in before && Side(t, Wal) !in before && Side(t, Shm) !in before
    requires Get(before, Main) == Some(Original)
    ensures Around(before, t, before) && Around(before[t := Scratch], t, before)
  {
  }

  lemma AroundStep(names: Names, t: Name, before: Names, x: Name, file: File)
    requires Around(names, t, before) && (x == t || x == Side(t, Wal) || x == Side(t, Shm))
    ensures Around(names[x := file], t, before) && Around(names - {x}, t, before)
  {
    forall n | n != t && n != Side(t, Wal) && n != Side(t, Shm)
      ensures Get(names[x := file], n) == Get(before, n) && Get(names - {x}, n) == Get(before, n)
    {
      assert Get(names, n) == Get(before, n);
    }
  }

  lemma AroundMain(names: Names, t: Name, before: Names)
    requires Around(names, t, before)
    ensures Get(names, Main) == Some(Original) && Safe(names) && Reaches(names) && t.Temp?
  {
    assert Get(names, Main) == Get(before, Main);
    ReachesBy(names, Main);
  }

  lemma AroundRemoved(names: Names, t: Name, before: Names)
    requires Around(names, t, before)
    ensures names - {t} - {Side(t, Wal)} - {Side(t, Shm)} == before
  {
    var left := names - {t} - {Side(t, Wal)} - {Side(t, Shm)};
    assert forall n :: n in left || n in before ==> Get(names, n) == Get(before, n);
    assert left.Keys == before.Keys;
  }

  lemma AroundStripped(names: Names, t: Name, before: Names)
    requires Around(names, t, before)
    ensures var left := names - {Side(t, Wal)} - {Side(t, Shm)};
            && Around(names - {Side(t, Wal)}, t, before) && Around(left, t, before)
            && (Get(names, t) == Some(Emptied) ==> left == before[t := Emptied])
  {
    AroundStep(names, t, before, Side(t, Wal), Scratch);
    AroundStep(names - {Side(t, Wal)}, t, before, Side(t, Shm), Scratch);
    if Get(names, t) == Some(Emptied) {
      var left := names - {Side(t, Wal)} - {Side(t, Shm)};
      assert forall n :: n != t && (n in left || n in before) ==> Get(names, n) == Get(before, n);
      assert left.Keys == before.Keys + {t};
    }
  }

  // ----- How the local variables follow the directory ------------------------------------

  /** The part a temporary name plays. */
  datatype Role = AsReplacement | AsBackup | AsRecovery | AsSaved(suffix: Suffix)

  function FileOf(role: Role): File {
    match role
    case AsReplacement => Emptied
    case AsSaved(s) => OriginalSide(s)
    case _ => Original
  }

  function Played(book: Book, role: Role): Option<Name> {
    match role
    case AsReplacement => book.replacement
    case AsBackup => book.backup
    case AsRecovery => book.recovery
    case AsSaved(s) => book.saved.Of(s)
  }

  function Cast(book: Book, role: Role, n: Option<Name>): Book {
    match role
    case AsReplacement => book.(replacement := n)
    case AsBackup => book.(backup := n)
    case AsRecovery => book.(recovery := n)
    case AsSaved(s) => book.(saved := book.saved.With(s, n))
  }

  lemma LinkApart(base: Names, book: Book, done: Done, serial: nat, role: Role)
    requires Apart(base, serial, book, done) && Free(base, serial) && Played(book, role).None?
    ensures Apart(base, serial + 1, Cast(book, role, Some(Temp(serial))), done)
  {
  }

  lemma UnlinkApart(base: Names, book: Book, done: Done, serial: nat, role: Role)
    requires Apart(base, serial, book, done)
    ensures Apart(base, serial, Cast(book, role, None), done)
  {
  }

  lemma ExpectedLinked(base: Names, book: Book, done: Done, serial: nat, role: Role, n: Name)
    requires Apart(base, serial, book, done) && Played(book, role).None? && done.dropped == {}
    ensures Expected(base, Cast(book, role, Some(Temp(serial))), done, n) ==
            if n == Temp(serial) then Some(FileOf(role)) else Expected(base, book, done, n)
  {
  }

  lemma ExpectedUnlinked(base: Names, book: Book, done: Done, serial: nat, role: Role, n: Name)
    requires Apart(base, serial, book, done) && Played(book, role).Some?
    ensures Expected(base, Cast(book, role, None), done, n) ==
            if n == Played(book, role).value then None else Expected(base, book, done, n)
  {
    match role {
      case AsReplacement =>
      case AsBackup =>
      case AsRecovery =>
      case AsSaved(s) =>
    }
  }

  lemma LinkMatches(names: Names, base: Names, book: Book, done: Done, serial: nat, role: Role)
    requires Matches(names, base, book, done) && Apart(base, serial, book, done) && Free(base, serial)
    requires Played(book, role).None? && done.dropped == {}
    ensures var next := Cast(book, role, Some(Temp(serial)));
            Matches(names[Temp(serial) := FileOf(role)], base, next, done) && Apart(base, serial + 1, next, done)
  {
    LinkApart(base, book, done, serial, role);
    hide Apart, Free, Expected, Cast, Played;
    var next := Cast(book, role, Some(Temp(serial)));
    forall n
      ensures Get(names[Temp(serial) := FileOf(role)], n) == Expected(base, next, done, n)
    {
      assert Get(names, n) == Expected(base, book, done, n);
      ExpectedLinked(base, book, done, serial, role, n);
    }
  }

  lemma UnlinkMatches(names: Names, base: Names, book: Book, done: Done, serial: nat, role: Role)
    requires Matches(names, base, book, done) && Apart(base, serial, book, done) && Played(book, role).Some?
    ensures var next := Cast(book, role, None);
            Matches(names - {Played(book, role).value}, base, next, done) && Apart(base, serial, next, done)
  {
    UnlinkApart(base, book, done, serial, role);
    hide Apart, Expected, Cast, Played;
    var next := Cast(book, role, None);
    forall n
      ensures Get(names - {Played(book, role).value}, n) == Expected(base, next, done, n)
    {
      assert Get(names, n) == Expected(base, book, done, n);
      ExpectedUnlinked(base, book, done, serial, role, n);
    }
  }

  /** The replacement takes the canonical name. */
  lemma ReplaceMatches(names: Names, base: Names, book: Book, done: Done, serial: nat)
    requires Matches(names, base, book, done) && Apart(base, serial, book, done) && book.replacement.Some?
               && !done.restored
    ensures var next := book.(replacement := None, replaced := true);
            Matches((names - {book.replacement.value})[Main := Emptied], base, next, done)
              && Apart(base, serial, next, done)
  {
    UnlinkMatches(names, base, book, done, serial, AsReplacement);
    var next := book.(replacement := None, replaced := true);
    var after := names - {book.replacement.value};
    forall n
      ensures Get(after[Main := Emptied], n) == Expected(base, next, done, n)
    {
      assert Get(after, n) == Expected(base, book.(replacement := None), done, n);
    }
  }

  /** The recovery link takes the canonical name back. */
  lemma RestoreMatches(names: Names, base: Names, book: Book, done: Done, serial: nat)
    requires Matches(names, base, book, done) && Apart(base, serial, book, done) && book.recovery.Some?
    ensures var next, back := book.(recovery := None), done.(restored := true);
            Matches((names - {book.recovery.value})[Main := Original], base, next, back)
              && Apart(base, serial, next, back)
  {
    UnlinkMatches(names, base, book, done, serial, AsRecovery);
    var next, back := book.(recovery := None), done.(restored := true);
    var after := names - {book.recovery.value};
    forall n
      ensures Get(after[Main := Original], n) == Expected(base, next, back, n)
    {
      assert Get(after, n) == Expected(base, next, done, n);
    }
  }

  lemma ClearMatches(names: Names, base: Names, book: Book, done: Done, serial: nat, s: Suffix)
    requires Matches(names, base, book, done) && Apart(base, serial, book, done)
    ensures var next := done.(cleared := done.cleared + {s});
            Matches(names - {Side(Main, s)}, base, book, next) && Apart(base, serial, book, next)
  {
    var next := done.(cleared := done.cleared + {s});
    forall n
      ensures Get(names - {Side(Main, s)}, n) == Expected(base, book, next, n)
    {
      assert Get(names, n) == Expected(base, book, done, n);
    }
  }

  /** A saved sidecar takes its old name back. */
  lemma PutBackMatches(names: Names, base: Names, book: Book, done: Done, serial: nat, s: Suffix)
    requires Matches(names, base, book, done) && Apart(base, serial, book, done)
    requires book.saved.Of(s).Some? && Get(base, Side(Main, s)) == Some(OriginalSide(s))
    ensures var next, back := Cast(book, AsSaved(s), None), done.(cleared := done.cleared - {s});
            && Matches((names - {book.saved.Of(s).value})[Side(Main, s) := OriginalSide(s)], base, next, back)
            && Apart(base, serial, next, back)
  {
    UnlinkMatches(names, base, book, done, serial, AsSaved(s));
    var next, back := Cast(book, AsSaved(s), None), done.(cleared := done.cleared - {s});
    var after := names - {book.saved.Of(s).value};
    forall n
      ensures Get(after[Side(Main, s) := OriginalSide(s)], n) == Expected(base, next, back, n)
    {
      assert Get(after, n) == Expected(base, next, done, n);
    }
  }

  /** A saved sidecar is unlinked while its name stays in the table. */
  lemma DropMatches(names: Names, base: Names, book: Book, done: Done, serial: nat, s: Suffix)
    requires Matches(names, base, book, done) && Apart(base, serial, book, done) && book.saved.Of(s).Some?
    ensures var next := done.(dropped := done.dropped + {s});
            Matches(names - {book.saved.Of(s).value}, base, book, next) && Apart(base, serial, book, next)
  {
    var next := done.(dropped := done.dropped + {s});
    forall n
      ensures Get(names - {book.saved.Of(s).value}, n) == Expected(base, book, next, n)
    {
      assert Get(names, n) == Expected(base, book, done, n);
    }
  }

  lemma ForgetMatches(names: Names, base: Names, book: Book, done: Done, serial: nat)
    requires Matches(names, base, book, done) && Apart(base, serial, book, done) && done.dropped == {Wal, Shm}
    ensures Matches(names, base, book.(saved := NONE_SAVED), done)
              && Apart(base, serial, book.(saved := NONE_SAVED), done)
  {
    forall n
      ensures Get(names, n) == Expected(base, book.(saved := NONE_SAVED), done, n)
    {
      assert Get(names, n) == Expected(base, book, done, n);
    }
  }

  /** The recovery link reaches the history. */
  lemma RecoveryReaches(names: Names, base: Names, book: Book, done: Done, serial: nat)
    requires Matches(names, base, book, done) && Apart(base, serial, book, done) && book.recovery.Some?
    ensures Reaches(names) && Safe(names)
  {
    assert Get(names, book.recovery.value) == Expected(base, book, done, book.recovery.value);
    assert Get(names, Main) == Expected(base, book, done, Main);
    ReachesBy(names, book.recovery.value);
  }

  lemma MatchesMain(names: Names, base: Names, book: Book, done: Done)
    requires Matches(names, base, book, done)
    ensures Safe(names)
  {
    assert Get(names, Main) == Expected(base, book, done, Main);
  }

  lemma PlayedIsTemp(base: Names, serial: nat, book: Book, done: Done, role: Role)
    requires Apart(base, serial, book, done) && Played(book, role).Some?
    ensures Played(book, role).value.Temp?
  {
    if role.AsSaved? {
      SavedIsTemp(base, serial, book, done, role.suffix);
    }
  }

  lemma StartMatches(names: Names, serial: nat)
    requires Untouched(names, serial)
    ensures Matches(names, names, BLANK, UNDONE) && Apart(names, serial, BLANK, UNDONE) && Safe(names) && Reaches(names)
  {
    ReachesBy(names, Main);
  }

  lemma LeakIsTemp(base: Names, serial: nat, book: Book, done: Done)
    requires Apart(base, serial, book, done)
    ensures done.leak.Some? ==> done.leak.value.Temp? && done.leak.value !in base
  {
  }

  lemma SavedIsTemp(base: Names, serial: nat, book: Book, done: Done, s: Suffix)
    requires Apart(base, serial, book, done) && book.saved.Of(s).Some?
    ensures book.saved.Of(s).value.Temp?
  {
  }

  lemma DropNothing(names: Names, base: Names, book: Book, done: Done, serial: nat, s: Suffix)
    requires Matches(names, base, book, done) && Apart(base, serial, book, done) && book.saved.Of(s).None?
    ensures var next := done.(dropped := done.dropped + {s});
            Matches(names, base, book, next) && Apart(base, serial, book, next)
  {
    var next := done.(dropped := done.dropped + {s});
    forall n
      ensures Get(names, n) == Expected(base, book, next, n)
    {
      assert Get(names, n) == Expected(base, book, done, n);
    }
  }

  lemma VerifiedMatches(names: Names, base: Names, book: Book, done: Done, serial: nat)
    requires Matches(names, base, book, done) && Apart(base, serial, book, done)
    ensures Matches(names, base, book.(verified := true), done) && Apart(base, serial, book.(verified := true), done)
  {
    forall n
      ensures Get(names, n) == Expected(base, book.(verified := true), done, n)
    {
      assert Get(names, n) == Expected(base, book, done, n);
    }
  }

  lemma SerialGrows(base: Names, serial: nat, book: Book, done: Done)
    requires Apart(base, serial, book, done) && Free(base, serial)
    ensures Apart(base, serial + 1, book, done) && Free(base, serial + 1)
  {
  }

  /** With every temporary name gone the directory is as it was, or purged. */
  lemma NothingLeft(names: Names, base: Names, book: Book, done: Done)
    requires Matches(names, base, book, done) && Get(base, Main) == Some(Original)
    requires book.replacement.None? && book.backup.None? && book.recovery.None? && book.saved == NONE_SAVED
    ensures (!book.replaced || done.restored) && (forall s <- done.cleared :: Side(Main, s) !in base) ==>
              names == if done.leak.Some? && done.leak.value.Temp? then base[done.leak.value := Scratch] else base
    ensures book.replaced && !done.restored && done.cleared == {Wal, Shm} && done.leak.None? ==> names == PurgedOf(base)
  {
    var after := if !book.replaced || done.restored
                 then (if done.leak.Some? && done.leak.value.Temp? then base[done.leak.value := Scratch] else base)
                 else PurgedOf(base);
    if ((!book.replaced || done.restored) && (forall s <- done.cleared :: Side(Main, s) !in base))
       || (book.replaced && !done.restored && done.cleared == {Wal, Shm} && done.leak.None?) {
      forall n
        ensures Get(names, n) == Get(after, n)
      {
        assert Get(names, n) == Expected(base, book, done, n);
      }
      SameDirectory(names, after);
    }
  }

  lemma SameDirectory(a: Names, b: Names)
    requires forall n :: Get(a, n) == Get(b, n)
    ensures a == b
  {
    forall n
      ensures n in a <==> n in b
    {
      assert Get(a, n) == Get(b, n);
    }
    forall n | n in a
      ensures a[n] == b[n]
    {
      assert Get(a, n) == Get(b, n);
    }
  }

  // ----- Operations that may fail -------------------------------------------------------

  /** Every operation of a purge that can fail, each of them done at most once: `again` tells the
      rollback's operations on a sidecar from the attempt's. */
  datatype Op =
    | Ready | Make | Build1 | Build2 | Strip(suffix: Suffix) | SetMode | Scrap(side: Option<Suffix>)
    | Validate | SyncFile
    | Reserve(role: Role) | GiveBack(role: Role) | Link(role: Role) | Inspect(suffix: Suffix)
    | Replace | SyncReplaced | ValidateReplaced
    | InspectSide(suffix: Suffix, again: bool) | DropSide(suffix: Suffix, again: bool)
    | SyncCleared | DropBackup | SyncDropped | DropRecovery | DropSaved(suffix: Suffix) | SyncLast
    | Restore | PutBack(suffix: Suffix) | SyncRestored | ValidateRestored | Clean(role: Role)

  /** Some reserved name could not be given back. */
  ghost predicate GaveUp(failed: seq<Op>) {
    exists op <- failed :: op.GiveBack?
  }

  lemma FailureAdds(failed: seq<Op>, op: Op)
    ensures GaveUp(failed + [op]) <==> GaveUp(failed) || op.GiveBack?
  {
    assert op in failed + [op];
    assert forall x :: x in failed + [op] <==> x in failed || x == op;
  }

  /** The links for which a purge of this directory reserves a name. */
  predicate Reserves(names: Names, role: Role) {
    match role
    case AsReplacement => false
    case AsBackup | AsRecovery => true
    case AsSaved(s) => Side(Main, s) in names
  }

  ghost predicate OnlyFails(fails: Op -> bool, op: Op) {
    forall x :: fails(x) <==> x == op
  }

  /** Past the point of no return: the database is empty and its sidecars are gone. */
  predicate Over(names: Names) {
    Get(names, Main) == Some(Emptied) && Side(Main, Wal) !in names && Side(Main, Shm) !in names
  }

  lemma MatchesOver(names: Names, base: Names, book: Book, done: Done)
    requires Matches(names, base, book, done) && book.replaced && !done.restored && done.cleared == {Wal, Shm}
    ensures Over(names)
  {
    assert Get(names, Main) == Expected(base, book, done, Main);
    assert Get(names, Side(Main, Wal)) == Expected(base, book, done, Side(Main, Wal));
    assert Get(names, Side(Main, Shm)) == Expected(base, book, done, Side(Main, Shm));
  }

  /** One directory fits the same variables only once. */
  lemma TidyTwice(a: Names, b: Names, base: Names, book: Book, done: Done)
    requires Matches(a, base, book, done) && Matches(b, base, book, done)
    ensures a == b
  {
    forall n
      ensures Get(a, n) == Get(b, n)
    {
      assert Get(a, n) == Expected(base, book, done, n) && Get(b, n) == Expected(base, book, done, n);
    }
    SameDirectory(a, b);
  }

  const BLANK := Book(None, None, None, NONE_SAVED, false, false)
  const UNDONE := Done({}, {}, false, None)

  class Session {
    var names: Names
    var serial: nat
    var book: Book
    ghost var base: Names
    ghost var done: Done
    const fails: Op -> bool
    ghost var failed: seq<Op>
    ghost var trail: seq<Names>
    ghost var purged: bool
    ghost var purgedAt: nat

    constructor (names: Names, serial: nat, fails: Op -> bool)
      ensures this.names == names && this.serial == serial && this.fails == fails
    {
      this.names, this.serial, this.fails := names, serial, fails;
      book, base, done, failed, trail, purged, purgedAt := BLANK, names, UNDONE, [], [names], false, 0;
    }

    /** Every directory state so far was safe; those before the point of no return reached the
        history, and from there on the database is empty and its sidecars are gone. What failed
        was on the script. */
    ghost predicate Recorded()
      reads this`names, this`trail, this`purged, this`purgedAt, this`base, this`failed
    {
      && trail != [] && trail[0] == base
      && Safe(names) && (forall m <- trail :: Safe(m))
      && (if purged then 0 < purgedAt <= |trail| && Over(names) else Reaches(names))
      && (forall i :: 0 <= i < |trail| && (!purged || i < purgedAt) ==> Reaches(trail[i]))
      && (forall i :: 0 <= i < |trail| && purged && i >= purgedAt ==> Over(trail[i]))
      && (forall op <- failed :: fails(op))
    }

    /** The directory is what the local variables say. */
    ghost predicate Tidy()
      reads this
    {
      && Apart(base, serial, book, done)
      && Matches(names, base, book, done)
      && Free(base, serial)
      && (done.leak.Some? <==> GaveUp(failed))
    }

    // ----- Directory operations: each succeeds as a whole or fails without effect -------

    /** Anything that leaves the directory as it is: validation, fsync, changing modes. */
    method Check(op: Op) returns (r: Reply<()>)
      requires Recorded() && !op.GiveBack?
      modifies this`failed
      ensures Recorded() && GaveUp(failed) == old(GaveUp(failed))
      ensures r == if fails(op) then Raised else Returned(())
      ensures failed == if fails(op) then old(failed) + [op] else old(failed)
    {
      if fails(op) {
        FailureAdds(failed, op);
        failed := failed + [op];
        return Raised;
      }
      return Returned(());
    }

    method Change(op: Op, next: Names) returns (r: Reply<()>)
      requires Recorded() && Safe(next) && (if purged then Over(next) else Reaches(next))
      modifies this`failed, this`names, this`trail
      ensures Recorded()
      ensures GaveUp(failed) <==> old(GaveUp(failed)) || (op.GiveBack? && fails(op))
      ensures r == if fails(op) then Raised else Returned(())
      ensures failed == if fails(op) then old(failed) + [op] else old(failed)
      ensures names == if fails(op) then old(names) else next
      ensures trail == if fails(op) then old(trail) else old(trail) + [next]
    {
      if fails(op) {
        FailureAdds(failed, op);
        failed := failed + [op];
        return Raised;
      }
      names := next;
      trail := trail + [next];
      return Returned(());
    }

    // ----- Temporary names --------------------------------------------------------------

    /** Reserves a name nobody uses and gives it back. The name stays behind exactly when it could
        be reserved but not given back. */
    method ReserveUniquePath(role: Role) returns (r: Reply<Name>)
      requires Tidy() && Recorded() && !purged && done.leak.None? && Get(names, Main) == Some(Original)
      modifies this`failed, this`names, this`trail, this`serial, this`done
      ensures Recorded() && Tidy() && serial == old(serial) + 1
      ensures r == if fails(Reserve(role)) || fails(GiveBack(role)) then Raised else Returned(Temp(old(serial)))
      ensures failed == old(failed) + if fails(Reserve(role)) then [Reserve(role)]
                                      else if fails(GiveBack(role)) then [GiveBack(role)] else []
      ensures done == old(done).(leak := if !fails(Reserve(role)) && fails(GiveBack(role))
                                         then Some(Temp(old(serial))) else None)
      ensures r.Returned? ==> r.value !in names && names == old(names)
    {
      hide Recorded, Reaches, GaveUp, Matches, Apart, Free;
      var t := Temp(serial);
      NewNamesAreFree(t);
      SerialGrows(base, serial, book, done);
      serial := serial + 1;
      ReachesBy(names[t := Scratch], Main);
      var _ :- Change(Reserve(role), names[t := Scratch]);
      ReachesBy(names - {t}, Main);
      var given := Change(GiveBack(role), names - {t});
      if given.Raised? {
        done := done.(leak := Some(t));
        LeakMatches(old(names), base, book, old(done), old(serial), t);
        return Raised;
      }
      assert names == old(names);
      return Returned(t);
    }

    /** Links a file under a new temporary name. A link that cannot be made leaves no trace. */
    method HardLink(role: Role, source: Name) returns (r: Reply<Name>)
      requires Tidy() && Recorded() && !purged && done.leak.None?
      requires source in names && Get(names, Main) == Some(Original)
      modifies this`failed, this`names, this`trail, this`serial, this`done
      ensures Recorded() && serial == old(serial) + 1
      ensures r.Returned? || r.Raised?
      ensures r.Raised? <==> fails(Reserve(role)) || fails(GiveBack(role)) || fails(Link(role))
      ensures done == old(done).(leak := if !fails(Reserve(role)) && fails(GiveBack(role))
                                         then Some(Temp(old(serial))) else None)
      ensures GaveUp(failed) <==> done.leak.Some?
      ensures r.Returned? ==> && r.value == Temp(old(serial)) && r.value !in old(names)
                              && names == old(names)[r.value := old(names)[source]] && failed == old(failed)
      ensures r.Raised? ==> Tidy() && |failed| == |old(failed)| + 1
      ensures r.Raised? && done.leak.None? ==> names == old(names)
    {
      hide Recorded, Reaches, Matches, Apart, Free, GaveUp;
      assert Tidy();
      var reserved := ReserveUniquePath(role);
      if reserved.Raised? {
        if done.leak.None? {
          TidyTwice(old(names), names, base, book, done);
        }
        return Raised;
      }
      var t := reserved.value;
      ReachesBy(names[t := names[source]], Main);
      var _ :- Change(Link(role), names[t := names[source]]);
      return Returned(t);
    }

    /** Prepares an empty database under a temporary name; on failure everything it made is
        unlinked again. */
    method CreateReplacement() returns (r: Reply<Name>)
      requires Tidy() && Recorded() && !purged && Get(names, Main) == Some(Original)
      modifies this`failed, this`names, this`trail, this`serial
      ensures Recorded() && serial == old(serial) + 1 && Get(names, Main) == Some(Original)
      ensures r.Returned? || r.Raised?
      ensures r.Returned? ==> && r.value == Temp(old(serial)) && r.value !in old(names)
                              && names == old(names)[r.value := Emptied] && failed == old(failed)
      ensures r.Raised? ==> |failed| > |old(failed)| && (|failed| == |old(failed)| + 1 ==> names == old(names))
      ensures GaveUp(failed) == old(GaveUp(failed))
    {
      hide Recorded, Reaches, Matches, Apart, Free, Around, GaveUp;
      var t := Temp(serial);
      NewNamesAreFree(t);
      serial := serial + 1;
      ghost var before := names;
      AroundStart(before, t);
      ReachesBy(names[t := Scratch], Main);
      var _ :- Change(Make, names[t := Scratch]);
      var made := Migrate(t, before);
      AroundMain(names, t, before);
      if made.Raised? {
        AroundRemoved(names, t, before);
        var _ :- Discard(Scrap(None), t);
        var _ :- Discard(Scrap(Some(Wal)), Side(t, Wal));
        var _ :- Discard(Scrap(Some(Shm)), Side(t, Shm));
        return Raised;
      }
      return Returned(t);
    }

    lemma NewNamesAreFree(t: Name)
      requires Tidy() && Main in names && t.Temp? && t.id >= serial
      ensures t !in names && Side(t, Wal) !in names && Side(t, Shm) !in names
    {
      assert Get(names, t) == Expected(base, book, done, t);
      assert Get(names, Side(t, Wal)) == Expected(base, book, done, Side(t, Wal));
      assert Get(names, Side(t, Shm)) == Expected(base, book, done, Side(t, Shm));
    }

    /** Lets the database library build the schema, which may leave sidecars, then removes them. */
    method Migrate(t: Name, ghost before: Names) returns (r: Reply<()>)
      requires Recorded() && !purged && names == before[t := Scratch] && Around(names, t, before)
      modifies this`failed, this`names, this`trail
      ensures Recorded() && Around(names, t, before)
      ensures r.Returned? || r.Raised?
      ensures r.Returned? ==> names == before[t := Emptied] && failed == old(failed)
      ensures r.Raised? ==> |failed| == |old(failed)| + 1
      ensures GaveUp(failed) == old(GaveUp(failed))
    {
      hide Recorded, Reaches, Around, GaveUp;
      var _ :- Build(t, before);
      AroundMain(names, t, before);
      AroundStripped(names, t, before);
      var _ :- Discard(Strip(Wal), Side(t, Wal));
      var _ :- Discard(Strip(Shm), Side(t, Shm));
      r := Check(SetMode);
    }

    method Build(t: Name, ghost before: Names) returns (r: Reply<()>)
      requires Recorded() && !purged && names == before[t := Scratch] && Around(names, t, before)
      modifies this`failed, this`names, this`trail
      ensures Recorded() && Around(names, t, before)
      ensures r.Returned? || r.Raised?
      ensures r.Returned? ==> Get(names, t) == Some(Emptied) && failed == old(failed)
      ensures r.Raised? ==> |failed| == |old(failed)| + 1
      ensures GaveUp(failed) == old(GaveUp(failed))
    {
      hide Recorded, Reaches, Around, GaveUp;
      var wal: bool, shm: bool := *, *;
      var left := names;
      if wal {
        AroundStep(left, t, before, Side(t, Wal), Scratch);
        left := left[Side(t, Wal) := Scratch];
      }
      if shm {
        AroundStep(left, t, before, Side(t, Shm), Scratch);
        left := left[Side(t, Shm) := Scratch];
      }
      AroundMain(left, t, before);
      var _ :- Change(Build1, left);
      AroundStep(left, t, before, t, Emptied);
      left := left[t := Emptied];
      AroundMain(left, t, before);
      r := Change(Build2, left);
    }

    /** Unlinks a name if it is there. */
    method Discard(op: Op, n: Name) returns (r: Reply<()>)
      requires Recorded() && n != Main && !op.GiveBack? && (!purged ==> Get(names, Main) == Some(Original))
      modifies this`failed, this`names, this`trail
      ensures Recorded() && GaveUp(failed) == old(GaveUp(failed))
      ensures r == if n in old(names) && fails(op) then Raised else Returned(())
      ensures failed == if r.Returned? then old(failed) else old(failed) + [op]
      ensures names == if r.Returned? then old(names) - {n} else old(names)
    {
      hide GaveUp, Reaches;
      if n !in names {
        assert names - {n} == names;
        return Returned(());
      }
      if !purged {
        ReachesBy(names - {n}, Main);
      }
      r := Change(op, names - {n});
    }

    // ----- The attempt ------------------------------------------------------------------

    /** Nothing has been replaced yet: the canonical name still has the history. */
    ghost predicate Before()
      reads this
    {
      Tidy() && Recorded() && !purged && !book.replaced && !book.verified && done == UNDONE.(leak := done.leak)
    }

    method Prepare() returns (r: Reply<()>)
      requires Before() && book == BLANK && done == UNDONE
      modifies this`failed, this`names, this`trail, this`serial, this`book
      ensures r.Returned? || r.Raised?
      ensures Recorded() && done == UNDONE && book.saved == NONE_SAVED && book.recovery.None? && book.backup.None?
      ensures r.Returned? ==> Before() && book.replacement.Some? && failed == old(failed)
      ensures r.Raised? ==>
                if |failed| == |old(failed)| + 1 then Before() else book == BLANK && |failed| > |old(failed)| + 1
      ensures !GaveUp(failed)
    {
      hide Recorded, Reaches, Matches, Apart, Free, GaveUp;
      MainIsBound();
      LinkMatches(names, base, book, done, serial, AsReplacement);
      SerialGrows(base, serial, book, done);
      var t :- CreateReplacement();
      book := book.(replacement := Some(t));
      var _ :- Check(Validate);
      r := Check(SyncFile);
    }

    lemma MainIsBound()
      requires Tidy()
      ensures Get(names, Main) == Some(if book.replaced && !done.restored then Emptied else Original)
    {
      assert Get(names, Main) == Expected(base, book, done, Main);
    }

    method LinkAs(role: Role, source: Name) returns (r: Reply<()>)
      requires Before() && done == UNDONE && Played(book, role).None? && Get(names, source) == Some(FileOf(role))
      modifies this`failed, this`names, this`trail, this`serial, this`book, this`done
      ensures r.Returned? || r.Raised?
      ensures Before()
      ensures r.Returned? ==> failed == old(failed) && done == UNDONE
      ensures r.Returned? ==> book == Cast(old(book), role, Some(Temp(old(serial))))
      ensures r.Returned? ==> !fails(GiveBack(role))
      ensures r.Raised? ==> |failed| == |old(failed)| + 1 && book == old(book)
    {
      hide Recorded, Reaches, Matches, Apart, Free, GaveUp;
      MainIsBound();
      LinkMatches(names, base, book, done, serial, role);
      SerialGrows(base, serial, book, done);
      var t :- HardLink(role, source);
      book := Cast(book, role, Some(t));
      return Returned(());
    }

    /** Saves a sidecar of the database if there is one. */
    method SaveSide(s: Suffix) returns (r: Reply<()>)
      requires Before() && done == UNDONE && book.saved.Of(s).None? && Pristine(base)
      modifies this`failed, this`names, this`trail, this`serial, this`book, this`done
      ensures r.Returned? || r.Raised?
      ensures Before()
      ensures r.Returned? ==> && failed == old(failed) && done == UNDONE && book == old(book).(saved := book.saved)
                              && (book.saved.Of(s).Some? <==> Side(Main, s) in base)
                              && book.saved == old(book).saved.With(s, book.saved.Of(s))
                              && (Side(Main, s) in base ==> !fails(GiveBack(AsSaved(s))))
      ensures r.Raised? ==> |failed| == |old(failed)| + 1 && book == old(book)
    {
      hide Recorded, Reaches, Apart, Free, GaveUp;
      assert Get(names, Side(Main, s)) == Expected(base, book, done, Side(Main, s));
      if Side(Main, s) in names {
        var _ :- Check(Inspect(s));
        r := LinkAs(AsSaved(s), Side(Main, s));
      } else {
        r := Returned(());
      }
    }

    /** Every sidecar the database had is saved. */
    ghost predicate Covered()
      reads this`base, this`book
    {
      (book.saved.wal.Some? <==> Side(Main, Wal) in base) && (book.saved.shm.Some? <==> Side(Main, Shm) in base)
    }

    /** No reservation that the purge makes refuses to be given back. */
    ghost predicate GivesBack()
      reads this`base
    {
      forall role :: Reserves(base, role) ==> !fails(GiveBack(role))
    }

    method LinkAll() returns (r: Reply<()>)
      requires Before() && done == UNDONE && Pristine(base)
      requires book.recovery.None? && book.backup.None? && book.saved == NONE_SAVED && book.replacement.Some?
      modifies this`failed, this`names, this`trail, this`serial, this`book, this`done
      ensures r.Returned? || r.Raised?
      ensures Before()
      ensures r.Returned? ==> && failed == old(failed) && done == UNDONE && Covered()
                              && book.recovery.Some? && book.backup.Some? && book.replacement.Some? && GivesBack()
      ensures r.Raised? ==> |failed| == |old(failed)| + 1
    {
      hide Recorded, Reaches, Matches, Apart, Free, Pristine, GaveUp;
      MainIsBound();
      var _ :- LinkAs(AsRecovery, Main);
      MainIsBound();
      var _ :- LinkAs(AsBackup, Main);
      var _ :- SaveSide(Wal);
      var _ :- SaveSide(Shm);
      forall role | Reserves(base, role)
        ensures !fails(GiveBack(role))
      {
        assert role.AsSaved? ==> role.suffix.Wal? || role.suffix.Shm?;
      }
      return Returned(());
    }

    // ----- The replacement --------------------------------------------------------------

    /** The canonical name has the empty database, and the recovery link the history. */
    ghost predicate Swapped()
      reads this
    {
      && Tidy() && Recorded() && !purged && book.replaced && !book.verified && book.replacement.None?
         && book.recovery.Some?
      && Covered() && done == UNDONE.(cleared := done.cleared)
    }

    method ReplaceMain() returns (r: Reply<()>)
      requires Before() && done == UNDONE && Covered() && book.recovery.Some? && book.replacement.Some?
      modifies this`failed, this`names, this`trail, this`book
      ensures r.Returned? || r.Raised?
      ensures r.Returned? ==> Swapped() && failed == old(failed) && done == UNDONE && book.backup == old(book).backup
      ensures r.Raised? ==> Before() && |failed| == |old(failed)| + 1
    {
      hide Recorded, Reaches, Matches, Apart, Free, GaveUp;
      var t := book.replacement.value;
      var next := (names - {t})[Main := Emptied];
      ReplaceMatches(names, base, book, done, serial);
      RecoveryReaches(next, base, book.(replacement := None, replaced := true), done, serial);
      var _ :- Change(Replace, next);
      book := book.(replaced := true, replacement := None);
      return Returned(());
    }

    /** Unlinks a sidecar of the canonical name if it is there. */
    method UnlinkSide(s: Suffix, again: bool) returns (r: Reply<()>)
      requires Tidy() && Recorded() && !purged && (book.recovery.Some? || done.restored)
      modifies this`failed, this`names, this`trail, this`done
      ensures Tidy() && Recorded()
      ensures r.Returned? || r.Raised?
      ensures |failed| == |old(failed)| + if r.Returned? then 0 else 1
      ensures r.Returned? ==> failed == old(failed)
      ensures done == if r.Returned? then old(done).(cleared := old(done).cleared + {s}) else old(done)
    {
      hide Recorded, Reaches, Matches, Apart, Free, GaveUp;
      var _ :- Check(InspectSide(s, again));
      ghost var gone := done.(cleared := done.cleared + {s});
      ClearMatches(names, base, book, done, serial, s);
      if Side(Main, s) in names {
        if book.recovery.Some? {
          RecoveryReaches(names - {Side(Main, s)}, base, book, gone, serial);
        } else {
          MainIsBound();
          ReachesBy(names - {Side(Main, s)}, Main);
        }
        var _ :- Change(DropSide(s, again), names - {Side(Main, s)});
      } else {
        assert names - {Side(Main, s)} == names;
      }
      done := gone;
      return Returned(());
    }

    method Swap() returns (r: Reply<()>)
      requires Before() && done == UNDONE && Covered() && book.recovery.Some? && book.replacement.Some?
      modifies this`failed, this`names, this`trail, this`book, this`done
      ensures r.Returned? || r.Raised?
      ensures r.Returned? ==> Swapped() && failed == old(failed) && done.cleared == {Wal, Shm}
      ensures r.Raised? ==> (Before() || Swapped()) && |failed| == |old(failed)| + 1
    {
      hide Recorded, Reaches, Matches, Apart, Free, GaveUp;
      var _ :- ReplaceMain();
      var _ :- Check(SyncReplaced);
      var _ :- Check(ValidateReplaced);
      var _ :- UnlinkSide(Wal, false);
      var _ :- UnlinkSide(Shm, false);
      var _ :- Check(SyncCleared);
      return Returned(());
    }

    // ----- The end of the history -------------------------------------------------------

    /** The recovery link is gone; only saved sidecars may be left. */
    ghost predicate Final()
      reads this
    {
      && Tidy() && Recorded() && purged && book.replaced && book.replacement.None? && book.recovery.None?
         && book.backup.None?
      && done == UNDONE.(cleared := {Wal, Shm}, dropped := done.dropped)
    }

    method UnlinkBackup() returns (r: Reply<()>)
      requires Swapped()
      modifies this`failed, this`names, this`trail, this`book
      ensures Swapped()
      ensures r.Returned? || r.Raised?
      ensures |failed| == |old(failed)| + if r.Returned? then 0 else 1
      ensures r.Returned? ==> failed == old(failed)
      ensures r.Returned? ==> book.backup.None?
    {
      hide Recorded, Reaches, Matches, Apart, Free, GaveUp;
      if book.backup.Some? {
        var n := book.backup.value;
        UnlinkMatches(names, base, book, done, serial, AsBackup);
        RecoveryReaches(names - {n}, base, book.(backup := None), done, serial);
        var _ :- Change(DropBackup, names - {n});
        book := book.(backup := None);
      }
      return Returned(());
    }

    /** The point of no return. */
    method UnlinkRecovery() returns (r: Reply<()>)
      requires Swapped() && book.backup.None? && done.cleared == {Wal, Shm}
      modifies this`failed, this`names, this`trail, this`book, this`purged, this`purgedAt
      ensures r.Returned? || r.Raised?
      ensures r.Returned? ==> Final() && failed == old(failed) && done == old(done) && !book.verified
      ensures r.Raised? ==> Swapped() && |failed| == |old(failed)| + 1
    {
      hide Matches, Apart, Free, Reaches, GaveUp;
      if fails(DropRecovery) {
        FailureAdds(failed, DropRecovery);
        failed := failed + [DropRecovery];
        return Raised;
      }
      UnlinkMatches(names, base, book, done, serial, AsRecovery);
      MatchesOver(names - {book.recovery.value}, base, book.(recovery := None), done);
      purged, purgedAt := true, |trail|;
      names := names - {book.recovery.value};
      trail := trail + [names];
      book := book.(recovery := None);
      return Returned(());
    }

    method UnlinkSaved(s: Suffix) returns (r: Reply<()>)
      requires Final() && !book.verified
      modifies this`failed, this`names, this`trail, this`done
      ensures Final()
      ensures r.Returned? || r.Raised?
      ensures |failed| == |old(failed)| + if r.Returned? then 0 else 1
      ensures r.Returned? ==> failed == old(failed)
      ensures done.dropped == if r.Returned? then old(done).dropped + {s} else old(done).dropped
    {
      hide Recorded, Reaches, Matches, Apart, Free, GaveUp;
      if book.saved.Of(s).Some? {
        SavedIsTemp(base, serial, book, done, s);
        DropMatches(names, base, book, done, serial, s);
        var _ :- Discard(DropSaved(s), book.saved.Of(s).value);
      } else {
        DropNothing(names, base, book, done, serial, s);
      }
      done := done.(dropped := done.dropped + {s});
      return Returned(());
    }

    method Finish() returns (r: Reply<()>)
      requires Swapped() && done.cleared == {Wal, Shm}
      modifies this`failed, this`names, this`trail, this`book, this`done, this`purged, this`purgedAt
      ensures r.Returned? || r.Raised?
      ensures r.Returned? ==> Final() && book.saved == NONE_SAVED && book.verified
      ensures r.Raised? ==> (Swapped() || (Final() && !book.verified)) && |failed| == |old(failed)| + 1
    {
      hide Recorded, Reaches, Matches, Apart, Free, GaveUp;
      var _ :- UnlinkBackup();
      var _ :- Check(SyncDropped);
      var _ :- UnlinkRecovery();
      var _ :- UnlinkSaved(Wal);
      var _ :- UnlinkSaved(Shm);
      ForgetMatches(names, base, book, done, serial);
      book := book.(saved := NONE_SAVED);
      var _ := Check(SyncLast);
      book := book.(verified := true);
      VerifiedMatches(names, base, book.(verified := false), done, serial);
      return Returned(());
    }

    /** Everything from creating the replacement to dropping the last link to the history. */
    method Attempt() returns (r: Reply<()>)
      requires Before() && book == BLANK && done == UNDONE && Pristine(base)
      modifies this`failed, this`names, this`trail, this`serial, this`book, this`done, this`purged, this`purgedAt
      ensures r.Returned? || r.Raised?
      ensures r.Returned? ==> Final() && Settled() && book.saved == NONE_SAVED && book.verified && GivesBack()
      ensures r.Raised? ==> && |failed| > |old(failed)| && Recorded() && !book.verified
                            && (|| (Before() && |failed| == |old(failed)| + 1)
                                || ((Swapped() || Final()) && GivesBack() && |failed| == |old(failed)| + 1)
                                || (book == BLANK && !purged && |failed| > |old(failed)| + 1 && !GaveUp(failed)))
    {
      hide Recorded, Reaches, Matches, Apart, Free, Pristine, GaveUp;
      var _ :- Prepare();
      var _ :- LinkAll();
      var _ :- Swap();
      r := Finish();
    }

    // ----- Putting the history back -----------------------------------------------------

    /** The canonical name has the history again. */
    ghost predicate Restored()
      reads this
    {
      && Tidy() && Recorded() && !purged && book.replaced && book.replacement.None? && book.recovery.None?
      && done == UNDONE.(cleared := done.cleared, restored := true)
    }

    /** One sidecar of the canonical name is replaced by the saved one, if there was one. */
    method RestoreSide(s: Suffix) returns (r: Reply<()>)
      requires Restored() && Pristine(base) && !book.verified && (book.saved.Of(s).Some? <==> Side(Main, s) in base)
      modifies this`failed, this`names, this`trail, this`book, this`done
      ensures r.Returned? || r.Raised?
      ensures Recorded() && !book.verified && book.replacement.None?
      ensures r.Returned? ==> && Restored() && book == Cast(old(book), AsSaved(s), None) && failed == old(failed)
                              && done.cleared == if Side(Main, s) in base
                                                 then old(done).cleared - {s} else old(done).cleared + {s}
      ensures r.Raised? ==> |failed| == |old(failed)| + 1
    {
      hide Recorded, Reaches, Matches, Apart, Free, GaveUp;
      var _ :- UnlinkSide(s, true);
      if book.saved.Of(s).Some? {
        var saved := book.saved.Of(s).value;
        SavedIsTemp(base, serial, book, done, s);
        MainIsBound();
        PutBackMatches(names, base, book, done, serial, s);
        var next := (names - {saved})[Side(Main, s) := OriginalSide(s)];
        ReachesBy(next, Main);
        book := book.(saved := book.saved.With(s, None));
        var _ :- Change(PutBack(s), next);
        done := done.(cleared := done.cleared - {s});
        assert old(done).cleared + {s} - {s} == old(done).cleared - {s};
      }
      return Returned(());
    }

    method RestoreMain() returns (r: Reply<()>)
      requires Swapped()
      modifies this`failed, this`names, this`trail, this`book, this`done
      ensures r.Returned? || r.Raised?
      ensures Recorded() && !book.verified && book.replacement.None?
      ensures r.Returned? ==> Restored() && Covered() && failed == old(failed)
      ensures r.Raised? ==> |failed| == |old(failed)| + 1
    {
      hide Recorded, Reaches, Matches, Apart, Free, GaveUp;
      var next := (names - {book.recovery.value})[Main := Original];
      RestoreMatches(names, base, book, done, serial);
      ReachesBy(next, Main);
      var _ :- Change(Restore, next);
      book := book.(recovery := None);
      done := done.(restored := true);
      return Returned(());
    }

    method Rollback() returns (r: Reply<()>)
      requires Swapped() && Pristine(base)
      modifies this`failed, this`names, this`trail, this`book, this`done
      ensures r.Returned? || r.Raised?
      ensures Recorded() && book.replacement.None?
      ensures r.Returned? ==> && Restored() && book.saved == NONE_SAVED && book.verified && failed == old(failed)
                              && forall s <- done.cleared :: Side(Main, s) !in base
      ensures r.Raised? ==> |failed| > |old(failed)| && !book.verified
    {
      hide Recorded, Reaches, Matches, Apart, Free, Pristine, GaveUp;
      var _ :- RestoreMain();
      var _ :- RestoreSide(Wal);
      var _ :- RestoreSide(Shm);
      var _ :- Check(SyncRestored);
      var _ :- Check(ValidateRestored);
      assert forall s <- done.cleared :: s.Wal? || s.Shm?;
      VerifiedMatches(names, base, book, done, serial);
      book := book.(verified := true);
      return Returned(());
    }

    // ----- Tidying up -------------------------------------------------------------------

    /** Nothing but temporary names separates the directory from what it was, or from a purged
        one. */
    ghost predicate Settled()
      reads this
    {
      && Tidy()
      && if purged then book.replaced && !done.restored && done.cleared == {Wal, Shm} && done.leak.None?
         else (!book.replaced || done.restored) && forall s <- done.cleared :: Side(Main, s) !in base
    }

    /** Unlinks a temporary name that is still in use. */
    method CleanRole(role: Role) returns (r: Reply<()>)
      requires Recorded() && (Played(book, role).Some? ==> Settled())
      modifies this`failed, this`names, this`trail, this`book
      ensures Recorded()
      ensures r.Returned? || r.Raised?
      ensures |failed| == |old(failed)| + if r.Returned? then 0 else 1
      ensures r.Returned? ==> failed == old(failed)
      ensures r.Returned? ==> book == Cast(old(book), role, None) && (old(Settled()) ==> Settled())
      ensures old(Played(book, role)).None? ==> r.Returned? && names == old(names)
      ensures r.Raised? ==> fails(Clean(role))
    {
      hide Recorded, Reaches, Matches, Apart, Free, GaveUp;
      var n := Played(book, role);
      if n.Some? {
        MainIsBound();
        PlayedIsTemp(base, serial, book, done, role);
        UnlinkMatches(names, base, book, done, serial, role);
        var _ :- Discard(Clean(role), n.value);
        book := Cast(book, role, None);
      }
      return Returned(());
    }

    /** Runs whatever happened before. Without a verified end state the links are left alone. */
    method Cleanup() returns (r: Reply<()>)
      requires Recorded() && if book.verified then Settled() || book.Nameless() else book.replacement.None?
      modifies this`failed, this`names, this`trail, this`book
      ensures Recorded()
      ensures r.Returned? || r.Raised?
      ensures |failed| == |old(failed)| + if r.Returned? then 0 else 1
      ensures r.Returned? ==> failed == old(failed)
      ensures r.Returned? && old(book).verified && old(Settled()) ==> Settled() && book.Nameless()
      ensures old(book.Nameless()) || !old(book).verified ==> r.Returned? && names == old(names)
      ensures r.Raised? ==> exists role :: fails(Clean(role))
    {
      hide Recorded, Reaches, Settled, GaveUp;
      var _ :- CleanRole(AsReplacement);
      if book.verified {
        var _ :- CleanRole(AsBackup);
        var _ :- CleanRole(AsRecovery);
        var _ :- CleanRole(AsSaved(Wal));
        var _ :- CleanRole(AsSaved(Shm));
      }
      return Returned(());
    }

    /** The handler of a failed attempt: puts the history back if it was replaced and can be. */
    method Handle() returns (r: Reply<()>)
      requires Recorded() && !book.verified && Pristine(base) && failed != []
      requires Before() || Swapped() || Final() || (book == BLANK && !purged && |failed| > 1)
      modifies this`failed, this`names, this`trail, this`book, this`done
      ensures r.Returned? || r.Raised?
      ensures Recorded() && book.verified == r.Returned?
      ensures r.Returned? ==> failed == old(failed) && (Settled() || (book.Nameless() && |failed| > 1))
      ensures r.Raised? ==> |failed| > 1 && book.replacement.None?
      ensures old(Before()) ==> r.Returned?
    {
      hide Recorded, Reaches, Matches, Apart, Free, Pristine, GaveUp;
      if book.replaced && book.recovery.Some? {
        RecoveryIsBound();
      }
      if book.replaced && book.recovery.Some? && book.recovery.value in names {
        r := Rollback();
      } else {
        if Tidy() {
          VerifiedMatches(names, base, book, done, serial);
        }
        book := book.(verified := true);
        return Returned(());
      }
    }

    lemma RecoveryIsBound()
      requires Tidy() && book.recovery.Some?
      ensures book.recovery.value in names
    {
      assert Get(names, book.recovery.value) == Expected(base, book, done, book.recovery.value);
    }

    // ----- The purge --------------------------------------------------------------------

    /** Purges the history, or puts it back. Whatever the script makes fail: `Recorded` holds of every
        directory state on the way. Without a fault the purge succeeds. Success, or a single fault
        after the point of no return, leaves no name of the history. A single fault before it
        leaves the directory exactly as it was if and only if the operation that failed is not the
        giving back of a reserved name; then that name is left, and nothing else. A script that
        fails just there leads there. */
    method PurgeHistory() returns (r: Reply<()>)
      requires Untouched(names, serial)
      modifies this
      ensures r.Returned? || r.Raised?
      ensures Recorded() && base == old(names) && trail[0] == old(names)
      ensures forall m <- trail :: Main in m && (m[Main] == Original || m[Main] == Emptied)
      ensures r.Returned? ==> purged && names == PurgedOf(old(names))
      ensures r.Returned? ==>
                && (forall n :: n in names <==> n in old(names) && n != Side(Main, Wal) && n != Side(Main, Shm))
                && (forall n <- names :: names[n] == if n == Main then Emptied else old(names)[n])
      ensures failed == [] ==> r.Returned?
      ensures r.Raised? && |failed| == 1 && purged ==> names == PurgedOf(old(names))
      ensures r.Raised? && |failed| == 1 && !purged ==>
                && (names == old(names) <==> !failed[0].GiveBack?)
                && (failed[0].GiveBack? ==>
                    exists n: Name :: n.Temp? && n !in old(names) && names == old(names)[n := Scratch])
      ensures forall role :: Reserves(old(names), role) && OnlyFails(fails, GiveBack(role)) ==>
                r.Raised? && failed == [GiveBack(role)] && !purged
    {
      hide Recorded, Reaches, Matches, Apart, Free, Pristine, PurgedOf, Settled, GaveUp;
      Open();
      var locked := Check(Ready);
      if locked.Raised? {
        Conclude();
        FirstState();
        return Raised;
      }
      r := Attempt();
      LedThere(r.Raised?);
      if r.Raised? {
        var _ := Handle();
      }
      var cleaned := Cleanup();
      if Settled() && book.Nameless() {
        Conclude();
      }
      FirstState();
      PurgedMeans(old(names));
      if cleaned.Raised? {
        return Raised;
      }
    }

    /** A script that fails only a give-back the purge needs stops the attempt there. */
    lemma LedThere(raised: bool)
      requires Recorded() && (!raised ==> GivesBack())
      requires raised ==> || (Before() && |failed| == 1)
                          || ((Swapped() || Final()) && GivesBack() && |failed| == 1)
                          || (!purged && |failed| > 1 && !GaveUp(failed))
      ensures forall role :: Reserves(base, role) && OnlyFails(fails, GiveBack(role)) ==>
                raised && failed == [GiveBack(role)] && Before()
    {
      hide Before, Swapped, Final;
      forall role | Reserves(base, role) && OnlyFails(fails, GiveBack(role))
        ensures raised && failed == [GiveBack(role)] && Before()
      {
        assert fails(GiveBack(role));
        assert failed[0] in failed && fails(failed[0]);
      }
    }

    lemma FirstState()
      requires Recorded()
      ensures trail != [] && trail[0] == base
      ensures forall m <- trail :: Main in m && (m[Main] == Original || m[Main] == Emptied)
    {
    }

    method Open()
      requires Untouched(names, serial)
      modifies this`book, this`base, this`done, this`failed, this`trail, this`purged, this`purgedAt
      ensures Before() && Settled() && book == BLANK && done == UNDONE && failed == [] && base == names
                && Pristine(base)
    {
      book, base, done, failed, trail, purged, purgedAt := BLANK, names, UNDONE, [], [names], false, 0;
      StartMatches(names, serial);
    }

    lemma Conclude()
      requires Settled() && book.Nameless() && Pristine(base)
      ensures purged ==> names == PurgedOf(base)
      ensures |failed| == 1 && !purged ==>
                && (names == base <==> !failed[0].GiveBack?)
                && (failed[0].GiveBack? ==> exists n: Name :: n.Temp? && n !in base && names == base[n := Scratch])
    {
      NothingLeft(names, base, book, done);
      LeakIsTemp(base, serial, book, done);
    }
  }
}
