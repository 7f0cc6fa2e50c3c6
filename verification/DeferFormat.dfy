/** Deferred actions, their identifiers, priorities and file names. */
module DeferFormat {
  import opened Text

  const U32_MAX := 0xFFFF_FFFF
  type u32 = n: int | 0 <= n <= U32_MAX

  datatype DeferAction =
    | Start
    | Stop
    | Restart
    | Reload
    | ReloadOrRestart
    | Command(argv: seq<string>)
    | DaemonReload

  datatype DeferPriority =
    | RestartPriority
    | ReloadOrRestartPriority
    | ReloadPriority
    | CommandPriority
    | DaemonReloadPriority

  datatype HealthCheck = Cmd(cmd: seq<string>) | Url(url: string)

  datatype DeferEntry = DeferEntry(
    id: string,
    action: DeferAction,
    initSystem: string,
    target: string,
    healthCheck: Option<HealthCheck>,
    priority: DeferPriority,
    enqueuedAt: int,
    enqueuedBy: seq<string>,
    attemptCount: u32,
    maxAttempts: u32)

  function Sortkey(p: DeferPriority): string {
    match p
    case RestartPriority => "0r"
    case ReloadOrRestartPriority => "1r"
    case ReloadPriority => "2r"
    case CommandPriority => "3c"
    case DaemonReloadPriority => "4d"
  }

  /** Position in the intended execution order. */
  function Rank(p: DeferPriority): nat {
    match p
    case RestartPriority => 0
    case ReloadOrRestartPriority => 1
    case ReloadPriority => 2
    case CommandPriority => 3
    case DaemonReloadPriority => 4
  }

  function Slug(a: DeferAction): string {
    match a
    case Start => "start"
    case Stop => "stop"
    case Restart => "restart"
    case Reload => "reload"
    case ReloadOrRestart => "reload_or_restart"
    case Command(_) => "command.run"
    case DaemonReload => "daemon_reload"
  }

  function DefaultPriority(a: DeferAction): DeferPriority {
    match a
    case Restart | Start | Stop => RestartPriority
    case ReloadOrRestart => ReloadOrRestartPriority
    case Reload => ReloadPriority
    case Command(_) => CommandPriority
    case DaemonReload => DaemonReloadPriority
  }

  function MakeId(initSystem: string, a: DeferAction, target: string): string {
    match a
    case Command(_) => "command.run:" + target
    case DaemonReload => if initSystem == "" then "daemon_reload" else initSystem + ".daemon_reload"
    case _ => initSystem + "." + Slug(a) + ":" + target
  }

  function Filename(e: DeferEntry): string {
    Sortkey(e.priority) + "-" + e.id + ".deferred"
  }

  function ManualClearFilename(e: DeferEntry): string {
    Sortkey(e.priority) + "-" + e.id + ".manual_clear"
  }

  /** The scratch name used while a record is being written. */
  function TmpName(e: DeferEntry, nanos: nat): string {
    Filename(e) + ".tmp." + Decimal(nanos)
  }

  /** `process.signal` queues commands under an id of its own; every other caller uses `make_id`. */
  predicate CanonicalId(e: DeferEntry) {
    || e.id == MakeId(e.initSystem, e.action, e.target)
    || (e.action.Command? && e.id == "process.signal:" + e.target)
  }

  /**
   The entries the program's own constructors build. `make_id` ignores the init system of a
   command and the target of a daemon reload, so those are empty; a dot in the init system
   would make identifiers ambiguous.
   */
  predicate WellFormed(e: DeferEntry) {
    && CanonicalId(e)
    && e.priority == DefaultPriority(e.action)
    && '.' !in e.initSystem
    && (e.action.Command? ==> e.initSystem == "")
    && (e.action.DaemonReload? ==> e.target == "")
  }

  /** Two actions of the same variant; a command's argv is not part of its identity. */
  predicate SameKind(a: DeferAction, b: DeferAction) {
    Slug(a) == Slug(b)
  }

  // ---------------------------------------------------------------- identifiers

  /** The part of an id before its first dot. */
  function IdHead(e: DeferEntry): string {
    if !e.action.Command? then e.initSystem
    else if e.id == "process.signal:" + e.target then "process"
    else "command"
  }

  /** The word between the first dot and the colon. */
  function IdWord(e: DeferEntry): string {
    if !e.action.Command? then Slug(e.action)
    else if e.id == "process.signal:" + e.target then "signal"
    else "run"
  }

  lemma IdShape(e: DeferEntry)
    requires WellFormed(e)
    ensures '.' !in IdHead(e) && ':' !in IdWord(e) && '.' !in IdWord(e)
    ensures !e.action.DaemonReload? ==> e.id == IdHead(e) + ['.'] + (IdWord(e) + [':'] + e.target)
    ensures e.action.DaemonReload? && e.initSystem != "" ==> e.id == IdHead(e) + ['.'] + IdWord(e)
    ensures e.action.DaemonReload? && e.initSystem == "" ==> e.id == IdWord(e) && '.' !in e.id
  {
    if e.action.Command? {
      CommandIdShape(e);
    } else if !e.action.DaemonReload? {
      assert e.id == e.initSystem + ['.'] + (Slug(e.action) + [':'] + e.target);
    } else if e.initSystem != "" {
      assert ".daemon_reload" == ['.'] + "daemon_reload";
    }
  }

  lemma CommandIdShape(e: DeferEntry)
    requires WellFormed(e) && e.action.Command?
    ensures '.' !in IdHead(e) && ':' !in IdWord(e) && '.' !in IdWord(e)
    ensures e.id == IdHead(e) + ['.'] + (IdWord(e) + [':'] + e.target)
  {
    if e.id == "process.signal:" + e.target {
      assert "process.signal:" == "process" + ['.'] + ("signal" + [':']);
    } else {
      assert "command.run:" == "command" + ['.'] + ("run" + [':']);
    }
  }

  /** The id of a well-formed entry determines its init system, its target and its kind of action. */
  lemma IdDetermines(e: DeferEntry, f: DeferEntry)
    requires WellFormed(e) && WellFormed(f) && e.id == f.id
    ensures e.initSystem == f.initSystem && e.target == f.target
    ensures SameKind(e.action, f.action) && e.priority == f.priority
  {
    IdShape(e);
    IdShape(f);
    var bareE := e.action.DaemonReload? && e.initSystem == "";
    var bareF := f.action.DaemonReload? && f.initSystem == "";
    assert !bareE ==> '.' in e.id;
    assert !bareF ==> '.' in f.id;
    if bareE {
      assert bareF;
    } else {
      var tailE := if e.action.DaemonReload? then IdWord(e) else IdWord(e) + [':'] + e.target;
      var tailF := if f.action.DaemonReload? then IdWord(f) else IdWord(f) + [':'] + f.target;
      SplitUnique('.', IdHead(e), tailE, IdHead(f), tailF);
      TailDetermines(e, f);
    }
  }

  lemma TailDetermines(e: DeferEntry, f: DeferEntry)
    requires WellFormed(e) && WellFormed(f) && e.id == f.id && IdHead(e) == IdHead(f)
    requires (if e.action.DaemonReload? then IdWord(e) else IdWord(e) + [':'] + e.target)
          == (if f.action.DaemonReload? then IdWord(f) else IdWord(f) + [':'] + f.target)
    ensures e.initSystem == f.initSystem && e.target == f.target
    ensures SameKind(e.action, f.action)
  {
    IdShape(e);
    IdShape(f);
    assert ':' in IdWord(e) + [':'] + e.target && ':' in IdWord(f) + [':'] + f.target;
    assert e.action.DaemonReload? == f.action.DaemonReload?;
    if !e.action.DaemonReload? && !f.action.DaemonReload? {
      SplitUnique(':', IdWord(e), e.target, IdWord(f), f.target);
      assert IdWord(e)[0] == IdWord(f)[0];
      assert |IdWord(e)| == |IdWord(f)|;
    }
  }

  predicate UnitAction(a: DeferAction) {
    !a.Command? && !a.DaemonReload?
  }

  /** What an id of a unit action starts with, up to its target. */
  function IdPrefix(i: string, a: DeferAction): string {
    i + "." + Slug(a) + ":"
  }

  /** What follows the id prefix of the shorter init system in the longer one, if that has it as a prefix. */
  function Middle(i: string, a: DeferAction, i': string): string {
    if |IdPrefix(i, a)| <= |i'| then i'[|IdPrefix(i, a)|..] else ""
  }

  /**
   Exactly when two actions on units share an id: they are the same request, or the longer init system
   continues an id of the shorter one, and so contains a dot, and the other target makes up for it.
   */
  lemma {:induction false} IdsCollideIff(i: string, a: DeferAction, t: string, i': string, a': DeferAction, t': string)
    requires UnitAction(a) && UnitAction(a') && |i| <= |i'|
    ensures var u := Middle(i, a, i');
            MakeId(i, a, t) == MakeId(i', a', t') <==>
              || (i == i' && SameKind(a, a') && t == t')
              || (i' == IdPrefix(i, a) + u && t == IdPrefix(u, a') + t')
    ensures MakeId(i, a, t) == MakeId(i', a', t') && i != i' ==> '.' in i'
  {
    hide Slug, MakeId, IdPrefix;
    if |i| == |i'| {
      SameLengthIds(i, a, t, i', a', t');
    } else {
      LongerIds(i, a, t, i', a', t');
    }
  }

  lemma {:induction false} SameLengthIds(i: string, a: DeferAction, t: string, i': string, a': DeferAction, t': string)
    requires UnitAction(a) && UnitAction(a') && |i| == |i'|
    ensures MakeId(i, a, t) == MakeId(i', a', t') <==> i == i' && SameKind(a, a') && t == t'
    ensures i' != IdPrefix(i, a) + Middle(i, a, i')
  {
    hide Slug, MakeId;
    var s, s' := i + ['.'] + (Slug(a) + [':'] + t), i' + ['.'] + (Slug(a') + [':'] + t');
    assert MakeId(i, a, t) == s && MakeId(i', a', t') == s' by { WholeId(i, a, t); WholeId(i', a', t'); }
    if s == s' {
      assert i == s[..|i|] && i' == s'[..|i|];
      assert Slug(a) + [':'] + t == s[|i| + 1..] && Slug(a') + [':'] + t' == s'[|i| + 1..];
      SlugHasNoDot(a);
      SlugHasNoDot(a');
      SplitUnique(':', Slug(a), t, Slug(a'), t');
    }
  }

  lemma WholeId(i: string, a: DeferAction, t: string)
    requires UnitAction(a)
    ensures MakeId(i, a, t) == i + ['.'] + (Slug(a) + [':'] + t)
  {
    hide Slug;
  }

  lemma {:induction false} LongerIds(i: string, a: DeferAction, t: string, i': string, a': DeferAction, t': string)
    requires UnitAction(a) && UnitAction(a') && |i| < |i'|
    ensures var u := Middle(i, a, i');
            MakeId(i, a, t) == MakeId(i', a', t') <==> i' == IdPrefix(i, a) + u && t == IdPrefix(u, a') + t'
    ensures MakeId(i, a, t) == MakeId(i', a', t') ==> '.' in i'
  {
    hide Slug, MakeId, IdPrefix;
    var head, rest, u := IdPrefix(i, a), IdPrefix([], a') + t', Middle(i, a, i');
    IdParts(i, a, t);
    IdParts(i', a', t');
    IdParts(u, a', t');
    SlugHasNoDot(a);
    NoDotInside(i, a);
    Overlap(head, t, i', rest, u);
    if head + t == i' + rest { LongerContinues(|i|, head, t, i', rest); }
  }

  lemma IdParts(i: string, a: DeferAction, t: string)
    requires UnitAction(a)
    ensures MakeId(i, a, t) == IdPrefix(i, a) + t == i + (IdPrefix([], a) + t)
    ensures |i| < |IdPrefix(i, a)| && IdPrefix(i, a)[|i|] == '.' && (IdPrefix([], a) + t)[0] == '.'
  {
    hide Slug;
  }

  lemma LongerContinues(n: nat, head: string, t: string, i: string, rest: string)
    requires head + t == i + rest && n < |i| && n < |head| && rest != []
    requires head[n] == '.' == rest[0] && forall j :: n < j < |head| ==> head[j] != '.'
    ensures |head| <= |i| && '.' in i
  {
    assert (i + rest)[|i|] == rest[0] && (i + rest)[n] == i[n];
    assert (head + t)[n] == head[n];
    assert forall j :: n < j < |head| ==> (head + t)[j] == head[j];
  }

  lemma NoDotInside(i: string, a: DeferAction)
    requires '.' !in Slug(a)
    ensures forall j :: |i| < j < |IdPrefix(i, a)| ==> IdPrefix(i, a)[j] != '.'
  {
    hide Slug;
    var head := IdPrefix(i, a);
    forall j | |i| < j < |head|
      ensures head[j] != '.'
    {
      if j < |head| - 1 { assert head[j] == Slug(a)[j - |i| - 1]; }
    }
  }

  lemma Overlap(head: string, t: string, i: string, rest: string, u: string)
    requires |head| <= |i| ==> u == i[|head|..]
    ensures |head| <= |i| ==> (head + t == i + rest <==> i == head + u && t == u + rest)
    ensures i == head + u && t == u + rest ==> head + t == i + rest
  {
    if |head| <= |i| && head + t == i + rest {
      assert i == (i + rest)[..|i|];
      assert i[..|head|] == (head + t)[..|head|] == head;
      assert i == i[..|head|] + u;
      assert t == (head + t)[|head|..];
      assert i + rest == head + (u + rest);
      assert t == (head + (u + rest))[|head|..];
    }
    if i == head + u && t == u + rest {
      assert head + t == i + rest;
    }
  }

  lemma SlugHasNoDot(a: DeferAction)
    requires UnitAction(a)
    ensures '.' !in Slug(a) && ':' !in Slug(a)
  {
  }

  /** Such requests exist: a dot in the init system makes two different requests share an id. */
  lemma DottedInitSystemCollides()
    ensures MakeId("a", Start, "b.start:c") == MakeId("a.start:b", Start, "c")
  {
    assert MakeId("a", Start, "b.start:c") == "a.start:b.start:c";
    assert MakeId("a.start:b", Start, "c") == "a.start:b.start:c";
  }

  // ---------------------------------------------------------------- file names

  /** File names and ids of well-formed entries determine each other. */
  lemma FilenameIsId(e: DeferEntry, f: DeferEntry)
    requires WellFormed(e) && WellFormed(f)
    ensures Filename(e) == Filename(f) <==> e.id == f.id
  {
    assert Filename(e)[3..|Filename(e)| - 9] == e.id;
    assert Filename(f)[3..|Filename(f)| - 9] == f.id;
    if e.id == f.id {
      IdDetermines(e, f);
    }
  }

  /** So do the names of promoted records. */
  lemma ManualNameIsId(e: DeferEntry, f: DeferEntry)
    requires WellFormed(e) && WellFormed(f)
    ensures ManualClearFilename(e) == ManualClearFilename(f) <==> e.id == f.id
  {
    hide WellFormed;
    assert ManualClearFilename(e)[3..|ManualClearFilename(e)| - 13] == e.id;
    assert ManualClearFilename(f)[3..|ManualClearFilename(f)| - 13] == f.id;
    if e.id == f.id {
      IdDetermines(e, f);
    }
  }

  lemma NamesAreLonger(e: DeferEntry)
    ensures e.id != Filename(e) && e.id != ManualClearFilename(e)
  {
    assert |Filename(e)| > |e.id| && |ManualClearFilename(e)| > |e.id|;
  }

  lemma FilenameExtensions(e: DeferEntry, nanos: nat)
    ensures Extension(Filename(e)) == Some("deferred")
    ensures Extension(ManualClearFilename(e)) == Some("manual_clear")
    ensures Extension(TmpName(e, nanos)) == Some(Decimal(nanos))
  {
    hide Extension, Decimal;
    var stem := Sortkey(e.priority) + "-" + e.id;
    ExtensionOfSuffix(stem, "deferred");
    assert ".deferred" == "." + "deferred" && Filename(e) == stem + "." + "deferred";
    ExtensionOfSuffix(stem, "manual_clear");
    assert ".manual_clear" == "." + "manual_clear" && ManualClearFilename(e) == stem + "." + "manual_clear";
    TmpExtension(e, nanos);
  }

  lemma TmpExtension(e: DeferEntry, nanos: nat)
    ensures Extension(TmpName(e, nanos)) == Some(Decimal(nanos))
  {
    hide Extension, Decimal, Filename;
    assert ".tmp." == ".tmp" + ".";
    assert TmpName(e, nanos) == Filename(e) + ".tmp" + "." + Decimal(nanos);
    ExtensionOfSuffix(Filename(e) + ".tmp", Decimal(nanos));
  }

  /** Digits are not a word. */
  lemma DecimalIsNoWord(nanos: nat)
    ensures Decimal(nanos) != "deferred" && Decimal(nanos) != "manual_clear"
  {
    hide Decimal;
    assert Decimal(nanos)[0] in Decimal(nanos);
    assert "deferred"[0] == 'd' && "manual_clear"[0] == 'm';
  }

  /** Sorting by file name sorts by execution rank. */
  lemma FilenameOrderIsRankOrder(e: DeferEntry, f: DeferEntry)
    requires LexLeq(Filename(e), Filename(f))
    ensures Rank(e.priority) <= Rank(f.priority)
  {
    assert Filename(e)[0] == Sortkey(e.priority)[0];
    assert Filename(f)[0] == Sortkey(f.priority)[0];
  }

  // ---------------------------------------------------------------- the names as they are on disk

  /** What stands before the init system in the name of a record, and between it and the target. */
  lemma UnitFilename(e: DeferEntry)
    requires UnitAction(e.action) && e.id == MakeId(e.initSystem, e.action, e.target)
    ensures Filename(e) ==
            (Sortkey(e.priority) + "-") + e.initSystem + ("." + Slug(e.action) + ":") + e.target + ".deferred"
    ensures ManualClearFilename(e) ==
            (Sortkey(e.priority) + "-") + e.initSystem + ("." + Slug(e.action) + ":") + e.target + ".manual_clear"
  {
    hide Slug, Sortkey;
    assert e.id == e.initSystem + ("." + Slug(e.action) + ":") + e.target;
  }

  /** The pending name of every kind of record. */
  lemma {:induction false} FilenameTells(e: DeferEntry)
    requires WellFormed(e)
    ensures e.action.Start? ==> Filename(e) == "0r-" + e.initSystem + ".start:" + e.target + ".deferred"
    ensures e.action.Stop? ==> Filename(e) == "0r-" + e.initSystem + ".stop:" + e.target + ".deferred"
    ensures e.action.Restart? ==> Filename(e) == "0r-" + e.initSystem + ".restart:" + e.target + ".deferred"
    ensures e.action.ReloadOrRestart? ==>
              Filename(e) == "1r-" + e.initSystem + ".reload_or_restart:" + e.target + ".deferred"
    ensures e.action.Reload? ==> Filename(e) == "2r-" + e.initSystem + ".reload:" + e.target + ".deferred"
    ensures e.action.Command? ==>
              || Filename(e) == "3c-command.run:" + e.target + ".deferred"
              || Filename(e) == "3c-process.signal:" + e.target + ".deferred"
    ensures e.action.DaemonReload? ==>
              Filename(e) == if e.initSystem == "" then "4d-daemon_reload.deferred"
                             else "4d-" + e.initSystem + ".daemon_reload.deferred"
  {
    if UnitAction(e.action) {
      assert e.id == MakeId(e.initSystem, e.action, e.target);
      UnitFilename(e);
      hide Filename, MakeId;
      match e.action {
        case Start => assert "0r" + "-" == "0r-" && "." + "start" + ":" == ".start:";
        case Stop => assert "0r" + "-" == "0r-" && "." + "stop" + ":" == ".stop:";
        case Restart => assert "0r" + "-" == "0r-" && "." + "restart" + ":" == ".restart:";
        case ReloadOrRestart => assert "1r" + "-" == "1r-" && "." + "reload_or_restart" + ":" == ".reload_or_restart:";
        case Reload => assert "2r" + "-" == "2r-" && "." + "reload" + ":" == ".reload:";
        case _ =>
      }
    } else {
      OtherFilename(e);
    }
  }

  lemma {:induction false} OtherFilename(e: DeferEntry)
    requires WellFormed(e) && !UnitAction(e.action)
    ensures e.action.Command? ==>
              || Filename(e) == "3c-command.run:" + e.target + ".deferred"
              || Filename(e) == "3c-process.signal:" + e.target + ".deferred"
    ensures e.action.DaemonReload? ==>
              Filename(e) == if e.initSystem == "" then "4d-daemon_reload.deferred"
                             else "4d-" + e.initSystem + ".daemon_reload.deferred"
  {
    if e.action.Command? {
      assert "3c" + "-" + "command.run:" == "3c-command.run:" && "3c" + "-" + "process.signal:" == "3c-process.signal:";
      assert "3c" + "-" + ("command.run:" + e.target) == "3c-command.run:" + e.target;
      assert "3c" + "-" + ("process.signal:" + e.target) == "3c-process.signal:" + e.target;
    } else if e.initSystem == "" {
      assert "4d" + "-" + "daemon_reload" + ".deferred" == "4d-daemon_reload.deferred";
    } else {
      assert "4d" + "-" == "4d-" && ".daemon_reload" + ".deferred" == ".daemon_reload.deferred";
      assert "4d" + "-" + (e.initSystem + ".daemon_reload") + ".deferred" ==
             "4d-" + e.initSystem + (".daemon_reload" + ".deferred");
    }
  }
}
