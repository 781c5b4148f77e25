/** The declarative package configuration of `MucChatBot`
    (mtj/jibber/jabber.py) and the pure rules by which its entries become
    trigger-table and timer-table entries: which entries are accepted, in
    what order, and how a timer's `seconds` value is read. */
module Tables {
  import opened Common
  import opened Replies

  /** A trigger as stored: the raw pattern, the handler alias, the method. */
  datatype Trigger = Trigger(pattern: string, alias: string, methodName: string)

  /** A listener as stored: the handler alias and the method. */
  datatype ListenerEntry = ListenerEntry(alias: string, methodName: string)

  /** The timer table's key, `(alias, methodName)`. */
  datatype TimerKey = TimerKey(alias: string, methodName: string)

  /** A timer's delay: a fixed number of seconds, or an inclusive range
      from which a fresh delay is drawn at every arming. */
  datatype Delay = Fixed(seconds: int) | Range(lo: int, hi: int)

  datatype TimerSpec = TimerSpec(delay: Delay, kwargs: Kwargs)

  datatype TimerEntry = TimerEntry(key: TimerKey, spec: TimerSpec)

  /** A configured `seconds` value as it comes out of the JSON configuration. */
  datatype Seconds =
    | SInt(n: int)
    | SBool(b: bool)
    | SList(elems: seq<Seconds>)
    | SText(s: string)
    | SOther

  /** One entry of a `schedule` list: its `seconds` and `method` keys, each
      `None` when the entry lacks it. */
  datatype ScheduleEntry = ScheduleEntry(seconds: Option<Seconds>, methodName: Option<string>)

  /** One element of a package's `timers`: its `schedule` list (`None` when
      the key is missing) and the remaining keys, which become the keyword
      arguments of every send. */
  datatype TimerGroup = TimerGroup(schedule: Option<seq<ScheduleEntry>>, kwargs: Kwargs)

  /** A package descriptor: the dotted class path, the constructor's
      keyword arguments (`None` when the key is missing), the optional
      alias and the trigger lists. A trigger entry is the configured list,
      which must hold exactly a pattern and a method name. */
  datatype Package = Package(
    path: string,
    kwargs: Option<Kwargs>,
    alias: Option<string>,
    privateCommands: seq<seq<string>>,
    commands: seq<seq<string>>,
    listeners: seq<string>,
    commentators: seq<seq<string>>,
    timers: seq<TimerGroup>)

  /** The client configuration keys the dispatcher reads. */
  datatype Config = Config(
    commandsMaxMatch: Option<int>,
    commentaryQsize: Option<int>,
    packages: Option<seq<Package>>)

  /** What a module attribute named by a package path is: whether it is a
      class at all, whether it is a `Command`, and the names of its
      methods. */
  datatype ClassInfo = ClassInfo(isClass: bool, isCommand: bool, methods: set<string>)

  /** An instantiated handler, known by the methods it has. */
  datatype Handler = Handler(methods: set<string>)

  /** Regular-expression semantics, left abstract: whether a pattern,
      rendered against a nickname (or used raw, `None`), compiles; and the
      groups of its first case-insensitive match in a body, if any. */
  datatype Patterns = Patterns(
    valid: (string, Option<string>) -> bool,
    search: (string, Option<string>, string) -> Option<Match>)

  /** An unfinished list: the entries produced before an exception. */
  datatype Partial<T> = Partial(done: seq<T>, error: Option<Exc>)

  // ---------------------------------------------------------------------
  // Trigger registration

  /** The accepted entries of a `commands` or `private_commands` list:
      those with exactly two elements whose pattern is valid, rendered
      against `nick` (`None`: used raw). A rejected entry is logged and
      skipped. */
  function AcceptedTriggers(raw: seq<seq<string>>, alias: string, pats: Patterns, nick: Option<string>): (ts: seq<Trigger>)
    ensures |ts| <= |raw|
  {
    if raw == [] then []
    else
      var rest := AcceptedTriggers(raw[1..], alias, pats, nick);
      if |raw[0]| == 2 && pats.valid(raw[0][0], nick) then [Trigger(raw[0][0], alias, raw[0][1])] + rest
      else rest
  }

  /** A trigger is registered exactly when some configured entry has two
      elements, a valid pattern, and gives that trigger. */
  lemma {:induction false} AcceptedTriggersExactly(
    raw: seq<seq<string>>, alias: string, pats: Patterns, nick: Option<string>, t: Trigger)
    ensures t in AcceptedTriggers(raw, alias, pats, nick) <==>
      exists i :: 0 <= i < |raw| && |raw[i]| == 2 && pats.valid(raw[i][0], nick) &&
                  t == Trigger(raw[i][0], alias, raw[i][1])
  {
    if raw != [] {
      AcceptedTriggersExactly(raw[1..], alias, pats, nick, t);
      if exists i :: 0 <= i < |raw[1..]| && |raw[1..][i]| == 2 && pats.valid(raw[1..][i][0], nick) &&
                     t == Trigger(raw[1..][i][0], alias, raw[1..][i][1]) {
        var i :| 0 <= i < |raw[1..]| && |raw[1..][i]| == 2 && pats.valid(raw[1..][i][0], nick) &&
                 t == Trigger(raw[1..][i][0], alias, raw[1..][i][1]);
        assert raw[i + 1] == raw[1..][i];
      }
      if exists i :: 0 <= i < |raw| && |raw[i]| == 2 && pats.valid(raw[i][0], nick) &&
                     t == Trigger(raw[i][0], alias, raw[i][1]) {
        var i :| 0 <= i < |raw| && |raw[i]| == 2 && pats.valid(raw[i][0], nick) &&
                 t == Trigger(raw[i][0], alias, raw[i][1]);
        if i > 0 {
          assert raw[1..][i - 1] == raw[i];
        }
      }
    }
  }

  /** `commentators` are not validated: every two-element entry is kept,
      and the first entry of another length raises a ValueError (it is
      unpacked outside any `try`). */
  function CommentatorTriggers(raw: seq<seq<string>>, alias: string): (p: Partial<Trigger>)
    ensures |p.done| <= |raw|
    ensures p.error.None? <==> forall i :: 0 <= i < |raw| ==> |raw[i]| == 2
    ensures p.error.None? ==> |p.done| == |raw|
    ensures p.error.Some? ==> |p.done| < |raw| && p.error == Some(ValueError) && |raw[|p.done|]| != 2
    ensures forall i :: 0 <= i < |p.done| ==> |raw[i]| == 2 && p.done[i] == Trigger(raw[i][0], alias, raw[i][1])
  {
    if raw == [] then Partial([], None)
    else if |raw[0]| != 2 then Partial([], Some(ValueError))
    else
      var rest := CommentatorTriggers(raw[1..], alias);
      Partial([Trigger(raw[0][0], alias, raw[0][1])] + rest.done, rest.error)
  }

  // ---------------------------------------------------------------------
  // The timer table: an insertion-ordered map from key to spec

  function Keys(timers: seq<TimerEntry>): (ks: seq<TimerKey>)
    ensures |ks| == |timers|
    ensures forall i :: 0 <= i < |timers| ==> ks[i] == timers[i].key
  {
    if timers == [] then [] else [timers[0].key] + Keys(timers[1..])
  }

  ghost predicate DistinctKeys(timers: seq<TimerEntry>)
  {
    forall i, j :: 0 <= i < j < |timers| ==> timers[i].key != timers[j].key
  }

  function Lookup(timers: seq<TimerEntry>, key: TimerKey): (r: Option<TimerSpec>)
    ensures r.None? <==> key !in Keys(timers)
    ensures r.Some? ==> TimerEntry(key, r.value) in timers
  {
    if timers == [] then None
    else if timers[0].key == key then Some(timers[0].spec)
    else Lookup(timers[1..], key)
  }

  /** With distinct keys every entry is what its key looks up. */
  lemma {:induction false} LookupAt(timers: seq<TimerEntry>, i: nat)
    requires DistinctKeys(timers) && i < |timers|
    ensures Lookup(timers, timers[i].key) == Some(timers[i].spec)
  {
    if i > 0 {
      assert timers[1..][i - 1] == timers[i];
      LookupAt(timers[1..], i - 1);
    }
  }

  /** `timers[key] = spec`: a present key keeps its position and takes the
      new spec; a new key goes last. */
  function PutTimer(timers: seq<TimerEntry>, key: TimerKey, spec: TimerSpec): (r: seq<TimerEntry>)
    ensures key in Keys(timers) ==> |r| == |timers|
    ensures key !in Keys(timers) ==> r == timers + [TimerEntry(key, spec)]
    ensures forall i :: 0 <= i < |timers| ==> r[i].key == timers[i].key
    ensures forall k :: k in Keys(r) <==> k in Keys(timers) || k == key
  {
    if timers == [] then [TimerEntry(key, spec)]
    else if timers[0].key == key then [TimerEntry(key, spec)] + timers[1..]
    else [timers[0]] + PutTimer(timers[1..], key, spec)
  }

  /** A put adds no entry other than the new one. */
  lemma {:induction false} PutTimerEntries(timers: seq<TimerEntry>, key: TimerKey, spec: TimerSpec)
    ensures forall e :: e in PutTimer(timers, key, spec) ==> e in timers || e == TimerEntry(key, spec)
  {
    if timers != [] && timers[0].key != key {
      PutTimerEntries(timers[1..], key, spec);
    }
  }

  /** After a put the key maps to the new spec and every other key keeps
      its spec. */
  lemma {:induction false} PutTimerLookup(timers: seq<TimerEntry>, key: TimerKey, spec: TimerSpec, k: TimerKey)
    ensures Lookup(PutTimer(timers, key, spec), k) == if k == key then Some(spec) else Lookup(timers, k)
  {
    if timers != [] && timers[0].key != key {
      PutTimerLookup(timers[1..], key, spec, k);
      assert PutTimer(timers, key, spec)[1..] == PutTimer(timers[1..], key, spec);
    } else if timers != [] && k != key {
      assert PutTimer(timers, key, spec)[1..] == timers[1..];
    }
  }

  /** A put keeps the keys distinct. */
  lemma PutTimerDistinct(timers: seq<TimerEntry>, key: TimerKey, spec: TimerSpec)
    requires DistinctKeys(timers)
    ensures DistinctKeys(PutTimer(timers, key, spec))
  {
    var r := PutTimer(timers, key, spec);
    forall i, j | 0 <= i < j < |r| ensures r[i].key != r[j].key {
      if j == |timers| {
        assert Keys(timers)[i] == timers[i].key;
      }
    }
  }

  /** Reading a configured `seconds`: an int (a bool is an int in Python)
      is a fixed delay; a two-element list of ints is a range; anything
      else is logged and dropped. Nothing checks that lo <= hi. */
  function ParseSeconds(s: Seconds): (d: Option<Delay>)
    ensures s.SInt? ==> d == Some(Fixed(s.n))
    ensures s.SBool? ==> d == Some(Fixed(if s.b then 1 else 0))
    ensures d.Some? && d.value.Range? <==>
      s.SList? && |s.elems| == 2 && IntValue(s.elems[0]).Some? && IntValue(s.elems[1]).Some?
    ensures d.Some? && d.value.Range? ==>
      d.value == Range(IntValue(s.elems[0]).value, IntValue(s.elems[1]).value)
    ensures s.SList? && |s.elems| == 2 && s.elems[0].SInt? && s.elems[1].SInt? ==>
      d == Some(Range(s.elems[0].n, s.elems[1].n))
    ensures (s.SText? || s.SOther?) ==> d.None?
  {
    match s
    case SInt(n) => Some(Fixed(n))
    case SBool(b) => Some(Fixed(if b then 1 else 0))
    case SList(es) =>
      if |es| == 2 && IntValue(es[0]).Some? && IntValue(es[1]).Some? then
        Some(Range(IntValue(es[0]).value, IntValue(es[1]).value))
      else None
    case _ => None
  }

  /** The int a JSON value stands for, when `isinstance(v, int)`. */
  function IntValue(s: Seconds): (r: Option<int>)
    ensures r.Some? <==> s.SInt? || s.SBool?
  {
    match s
    case SInt(n) => Some(n)
    case SBool(b) => Some(if b then 1 else 0)
    case _ => None
  }

  /** An entry that has both its `seconds` and its `method`. */
  predicate Complete(e: ScheduleEntry)
  {
    e.seconds.Some? && e.methodName.Some?
  }

  /** The timer table as far as it was filled, and the exception that
      stopped the filling. */
  datatype Filled = Filled(timers: seq<TimerEntry>, error: Option<Exc>)

  /** `setup_schedule` for one timer group: each accepted entry is put under
      `(alias, methodName)`, a later entry for the same method overwriting;
      the first entry lacking `seconds` or `method` raises a KeyError,
      leaving the entries before it in the table. */
  function AddSchedule(timers: seq<TimerEntry>, alias: string, es: seq<ScheduleEntry>, kwargs: Kwargs): (f: Filled)
    ensures f.error.None? <==> forall i :: 0 <= i < |es| ==> Complete(es[i])
    ensures f.error.None? || f.error == Some(KeyError)
    decreases |es|
  {
    if es == [] then Filled(timers, None)
    else if !Complete(es[0]) then Filled(timers, Some(KeyError))
    else
      var next := match ParseSeconds(es[0].seconds.value)
        case Some(d) => PutTimer(timers, TimerKey(alias, es[0].methodName.value), TimerSpec(d, kwargs))
        case None => timers;
      var f := AddSchedule(next, alias, es[1..], kwargs);
      assert forall i :: 1 <= i < |es| ==> es[i] == es[1..][i - 1];
      f
  }

  /** The delay of the last accepted entry for `methodName` among the
      entries before the first incomplete one. */
  function LastDelay(es: seq<ScheduleEntry>, methodName: string): Option<Delay>
  {
    if es == [] || !Complete(es[0]) then None
    else match LastDelay(es[1..], methodName)
      case Some(d) => Some(d)
      case None =>
        if es[0].methodName.value == methodName then ParseSeconds(es[0].seconds.value) else None
  }

  /** After `setup_schedule` a key of this package holds the spec of the
      LAST accepted entry for its method; keys it did not mention are
      untouched; distinct keys stay distinct. */
  lemma {:induction false} AddScheduleLookup(
    timers: seq<TimerEntry>, alias: string, es: seq<ScheduleEntry>, kwargs: Kwargs, k: TimerKey)
    requires DistinctKeys(timers)
    ensures DistinctKeys(AddSchedule(timers, alias, es, kwargs).timers)
    ensures Lookup(AddSchedule(timers, alias, es, kwargs).timers, k) ==
      if k.alias == alias && LastDelay(es, k.methodName).Some?
      then Some(TimerSpec(LastDelay(es, k.methodName).value, kwargs))
      else Lookup(timers, k)
    decreases |es|
  {
    if es != [] && Complete(es[0]) {
      var key := TimerKey(alias, es[0].methodName.value);
      match ParseSeconds(es[0].seconds.value)
      case Some(d) =>
        PutTimerLookup(timers, key, TimerSpec(d, kwargs), k);
        PutTimerDistinct(timers, key, TimerSpec(d, kwargs));
        AddScheduleLookup(PutTimer(timers, key, TimerSpec(d, kwargs)), alias, es[1..], kwargs, k);
      case None =>
        AddScheduleLookup(timers, alias, es[1..], kwargs, k);
    }
  }

  /** `setup_schedule(package, **group)` cannot be called: the group lacks
      `schedule`, or one of its keys names a parameter that is already
      bound (`self`, `package`). */
  predicate BadGroup(g: TimerGroup)
  {
    g.schedule.None? || "package" in g.kwargs || "self" in g.kwargs
  }

  /** A group `setup_schedule` accepts whole: callable, and every entry
      has `seconds` and `method`. */
  predicate GoodGroup(g: TimerGroup)
  {
    !BadGroup(g) && forall j :: 0 <= j < |g.schedule.value| ==> Complete(g.schedule.value[j])
  }

  /** `setup_timers`: every group of the package in order. A group that
      `setup_schedule` cannot be called with raises a TypeError, and a
      KeyError from a group's entries stops the groups after it. */
  function AddTimers(timers: seq<TimerEntry>, alias: string, groups: seq<TimerGroup>): (f: Filled)
    ensures f.error.None? || f.error == Some(TypeError) || f.error == Some(KeyError)
    ensures f.error.None? <==> forall i :: 0 <= i < |groups| ==> GoodGroup(groups[i])
    ensures groups != [] && BadGroup(groups[0]) ==> f == Filled(timers, Some(TypeError))
    decreases |groups|
  {
    if groups == [] then Filled(timers, None)
    else if BadGroup(groups[0]) then Filled(timers, Some(TypeError))
    else
      var f0 := AddSchedule(timers, alias, groups[0].schedule.value, groups[0].kwargs);
      if f0.error.Some? then f0
      else
        var f := AddTimers(f0.timers, alias, groups[1..]);
        assert forall i :: 1 <= i < |groups| ==> groups[i] == groups[1..][i - 1];
        f
  }

  /** Every entry `setup_schedule` adds carries the group's keyword
      arguments. */
  lemma {:induction false} AddScheduleKwargs(timers: seq<TimerEntry>, alias: string, es: seq<ScheduleEntry>, kwargs: Kwargs)
    ensures forall e :: e in AddSchedule(timers, alias, es, kwargs).timers ==> e in timers || e.spec.kwargs == kwargs
    decreases |es|
  {
    if es != [] && Complete(es[0]) {
      match ParseSeconds(es[0].seconds.value)
      case Some(d) =>
        PutTimerEntries(timers, TimerKey(alias, es[0].methodName.value), TimerSpec(d, kwargs));
        AddScheduleKwargs(PutTimer(timers, TimerKey(alias, es[0].methodName.value), TimerSpec(d, kwargs)), alias, es[1..], kwargs);
      case None =>
        AddScheduleKwargs(timers, alias, es[1..], kwargs);
    }
  }

  /** A timer put by `setup_timers` never carries a `package` or `self`
      keyword: such a group is refused before any of its entries is read. */
  lemma {:induction false} AddTimersNoBoundKeys(timers: seq<TimerEntry>, alias: string, groups: seq<TimerGroup>)
    ensures forall e :: e in AddTimers(timers, alias, groups).timers ==>
      e in timers || ("package" !in e.spec.kwargs && "self" !in e.spec.kwargs)
    decreases |groups|
  {
    if groups != [] && !BadGroup(groups[0]) {
      var f0 := AddSchedule(timers, alias, groups[0].schedule.value, groups[0].kwargs);
      AddScheduleKwargs(timers, alias, groups[0].schedule.value, groups[0].kwargs);
      if f0.error.None? {
        AddTimersNoBoundKeys(f0.timers, alias, groups[1..]);
      }
    }
  }

  lemma {:induction false} AddTimersDistinct(timers: seq<TimerEntry>, alias: string, groups: seq<TimerGroup>)
    requires DistinctKeys(timers)
    ensures DistinctKeys(AddTimers(timers, alias, groups).timers)
    decreases |groups|
  {
    if groups != [] && !BadGroup(groups[0]) {
      var k: TimerKey :| true;
      AddScheduleLookup(timers, alias, groups[0].schedule.value, groups[0].kwargs, k);
      AddTimersDistinct(AddSchedule(timers, alias, groups[0].schedule.value, groups[0].kwargs).timers, alias, groups[1..]);
    }
  }

  // ---------------------------------------------------------------------
  // Package registration

  lemma AddTimersKeepsDistinct(timers: seq<TimerEntry>, alias: string, groups: seq<TimerGroup>)
    ensures DistinctKeys(timers) ==> DistinctKeys(AddTimers(timers, alias, groups).timers)
  {
    if DistinctKeys(timers) {
      AddTimersDistinct(timers, alias, groups);
    }
  }

  /** The listener entries of a package's `listeners` list, unvalidated. */
  function ListenerEntries(names: seq<string>, alias: string): (ls: seq<ListenerEntry>)
    ensures |ls| == |names|
    ensures forall i :: 0 <= i < |names| ==> ls[i] == ListenerEntry(alias, names[i])
  {
    if names == [] then [] else [ListenerEntry(alias, names[0])] + ListenerEntries(names[1..], alias)
  }

  /** The index of the last '.' of a dotted path, where `rsplit('.', 1)`
      cuts it into a module and a class name. */
  function LastDot(s: string): (k: Option<nat>)
    ensures k.None? <==> '.' !in s
    ensures k.Some? ==> k.value < |s| && s[k.value] == '.' && '.' !in s[k.value + 1..]
  {
    if s == [] then None
    else if s[|s| - 1] == '.' then Some(|s| - 1)
    else
      var k := LastDot(s[..|s| - 1]);
      assert s[..|s| - 1] + [s[|s| - 1]] == s;
      if k.Some? then
        assert s[k.value + 1..] == s[..|s| - 1][k.value + 1..] + [s[|s| - 1]];
        k
      else k
  }

  /** The dispatcher's tables: the handler objects by alias, the three
      trigger lists, the listener list and the timer table. */
  datatype Registry = Registry(
    objects: map<string, Handler>,
    privateCommands: seq<Trigger>,
    commands: seq<Trigger>,
    listeners: seq<ListenerEntry>,
    commentators: seq<Trigger>,
    timers: seq<TimerEntry>)

  const EmptyRegistry: Registry := Registry(map[], [], [], [], [], [])

  /** The tables after a package, and the exception that stopped it. */
  datatype Loaded = Loaded(reg: Registry, error: Option<Exc>)

  /** The handler alias of a package: its `alias`, else its path. */
  function AliasOf(pkg: Package): string
  {
    if pkg.alias.Some? then pkg.alias.value else pkg.path
  }

  /** `setup_package` followed by `setup_package_instance`. A descriptor
      without `kwargs` raises a TypeError (the argument is missing). The
      path must contain a dot (else the unpacking raises a ValueError); its
      module part must be non-empty (`import_module('')` raises a
      ValueError) and must not start with a dot (a relative import without
      a `package` argument raises a TypeError); the module must be
      importable (ImportError) and define the attribute
      (AttributeError), which must be a class (`issubclass` raises a
      TypeError). A class that is not a `Command` is skipped. Otherwise the
      handler is registered under the alias, replacing an earlier one, and
      the entries are appended in the order private commands, commands,
      listeners, commentators, timers; a malformed commentator raises a
      ValueError after the commentators before it were appended, and the
      package's timers are then never read; a malformed timer group or
      schedule entry raises after the timers before it were put. */
  function AddPackage(reg: Registry, pkg: Package, modules: map<string, map<string, ClassInfo>>,
                      pats: Patterns, nickname: string): (l: Loaded)
    ensures l.error.None? || l.error == Some(TypeError) || l.error == Some(ValueError) ||
            l.error == Some(ImportError) || l.error == Some(AttributeError) || l.error == Some(KeyError)
    ensures pkg.kwargs.None? ==> l == Loaded(reg, Some(TypeError))
    ensures pkg.kwargs.Some? && '.' !in pkg.path ==> l == Loaded(reg, Some(ValueError))
    ensures pkg.kwargs.Some? && LastDot(pkg.path) == Some(0) ==> l == Loaded(reg, Some(ValueError))
    ensures pkg.kwargs.Some? && LastDot(pkg.path).Some? && 0 < LastDot(pkg.path).value && pkg.path[0] == '.' ==>
              l == Loaded(reg, Some(TypeError))
    ensures reg.privateCommands <= l.reg.privateCommands
    ensures reg.commands <= l.reg.commands
    ensures reg.listeners <= l.reg.listeners
    ensures reg.commentators <= l.reg.commentators
    ensures DistinctKeys(reg.timers) ==> DistinctKeys(l.reg.timers)
  {
    if pkg.kwargs.None? then Loaded(reg, Some(TypeError))
    else match LastDot(pkg.path)
    case None => Loaded(reg, Some(ValueError))
    case Some(k) =>
      var ns, cls := pkg.path[..k], pkg.path[k + 1..];
      if ns == [] then Loaded(reg, Some(ValueError))
      else if ns[0] == '.' then Loaded(reg, Some(TypeError))
      else if ns !in modules then Loaded(reg, Some(ImportError))
      else if cls !in modules[ns] then Loaded(reg, Some(AttributeError))
      else if !modules[ns][cls].isClass then Loaded(reg, Some(TypeError))
      else if !modules[ns][cls].isCommand then Loaded(reg, None)
      else
        var alias := AliasOf(pkg);
        var ct := CommentatorTriggers(pkg.commentators, alias);
        var ft := AddTimers(reg.timers, alias, pkg.timers);
        AddTimersKeepsDistinct(reg.timers, alias, pkg.timers);
        Loaded(
          Registry(
            reg.objects[alias := Handler(modules[ns][cls].methods)],
            reg.privateCommands + AcceptedTriggers(pkg.privateCommands, alias, pats, None),
            reg.commands + AcceptedTriggers(pkg.commands, alias, pats, Some(nickname)),
            reg.listeners + ListenerEntries(pkg.listeners, alias),
            reg.commentators + ct.done,
            if ct.error.None? then ft.timers else reg.timers),
          if ct.error.Some? then ct.error else ft.error)
  }

  /** The packages in order; the first exception ends the list. */
  function AddPackages(reg: Registry, pkgs: seq<Package>, modules: map<string, map<string, ClassInfo>>,
                       pats: Patterns, nickname: string): (l: Loaded)
    ensures DistinctKeys(reg.timers) ==> DistinctKeys(l.reg.timers)
    decreases |pkgs|
  {
    if pkgs == [] then Loaded(reg, None)
    else
      var l0 := AddPackage(reg, pkgs[0], modules, pats, nickname);
      if l0.error.Some? then l0
      else AddPackages(l0.reg, pkgs[1..], modules, pats, nickname)
  }
}
