/** What the white- or blacklist means, told by matches alone, and which devices a run ends up with. */
module Policies {
  import opened NetworkModel
  import opened NetworkLaws
  import opened NetworkCycle
  import opened NetworkRuns

  /** Some pattern of the list matches the name. */
  predicate Matched(matches: (string, string) -> bool, patterns: seq<string>, name: string) {
    exists i :: 0 <= i < |patterns| && matches(name, patterns[i])
  }

  /** A whitelist allows what some pattern matches, a blacklist what none matches. */
  lemma AllowedExactly(s: NetState, name: string)
    ensures Allowed(s, name) <==>
            (s.mode == Whitelist && Matched(s.matches, s.patterns, name)) ||
            (s.mode == Blacklist && !Matched(s.matches, s.patterns, name))
  {
    if Matched(s.matches, s.patterns, name) {
      var i :| 0 <= i < |s.patterns| && s.matches(name, s.patterns[i]);
      assert s.patterns[i] in s.patterns;
    }
  }

  /** Without patterns a whitelist allows nothing and a blacklist everything. */
  lemma NoPatterns(s: NetState, name: string)
    requires s.patterns == []
    ensures Allowed(s, name) <==> s.mode == Blacklist
  {
    AllowedExactly(s, name);
  }

  /** One more pattern allows what it matches, or forbids it. */
  lemma OneMorePattern(s: NetState, pattern: string, name: string)
    ensures var t := s.(patterns := s.patterns + [pattern]);
            Allowed(t, name) <==> if s.mode == Whitelist then Allowed(s, name) || s.matches(name, pattern)
                                  else Allowed(s, name) && !s.matches(name, pattern)
  {
    var t := s.(patterns := s.patterns + [pattern]);
    AllowedExactly(s, name);
    AllowedExactly(t, name);
    MatchedAppend(s.matches, s.patterns, pattern, name);
  }

  lemma MatchedAppend(matches: (string, string) -> bool, patterns: seq<string>, pattern: string, name: string)
    ensures Matched(matches, patterns + [pattern], name) <==> Matched(matches, patterns, name) || matches(name, pattern)
  {
    var more := patterns + [pattern];
    if Matched(matches, patterns, name) {
      var i :| 0 <= i < |patterns| && matches(name, patterns[i]);
      assert matches(name, more[i]);
    }
    assert more[|patterns|] == pattern;
  }

  /** The other mode gives the opposite answer. */
  lemma ModeSwitched(s: NetState, name: string)
    ensures Allowed(s.(mode := if s.mode == Whitelist then Blacklist else Whitelist), name) <==> !Allowed(s, name)
  {
    var t := s.(mode := if s.mode == Whitelist then Blacklist else Whitelist);
    AllowedExactly(s, name);
    AllowedExactly(t, name);
  }

  // Runs

  /** The patterns that a run adds. */
  function Added(steps: seq<Step>): seq<string> {
    if steps == [] then []
    else
      var last := steps[|steps| - 1];
      Added(steps[..|steps| - 1]) + (if last.AddingPattern? then [last.pattern] else [])
  }

  /** Runs that keep the mode and only add patterns. */
  predicate OnlyAdds(steps: seq<Step>) {
    forall i :: 0 <= i < |steps| ==> !steps[i].SettingMode? && !steps[i].ClearingPatterns? &&
                                     (steps[i].Tuning? ==> steps[i].settings.autoManage)
  }

  lemma {:induction false} PolicyAfter(s: NetState, steps: seq<Step>)
    requires OnlyAdds(steps)
    ensures var t := Run(s, steps);
            t.patterns == s.patterns + Added(steps) && t.mode == s.mode && t.matches == s.matches
  {
    hide AddPattern, Cycle;
    if steps == [] {
      assert s.patterns + [] == s.patterns;
    } else {
      var front, last := steps[..|steps| - 1], steps[|steps| - 1];
      var t := Run(s, front);
      PolicyAfter(s, front);
      match last
      case Cycling(os) => CyclePolicy(t, os);
      case AddingPattern(p) => PatternPolicy(t, p);
      case _ =>
    }
  }

  lemma PatternPolicy(s: NetState, pattern: string)
    ensures var t := AddPattern(s, pattern);
            t.patterns == s.patterns + [pattern] && t.mode == s.mode && t.matches == s.matches
  {
    var listed := s.(patterns := s.patterns + [pattern]);
    RemoveAllSettings(listed, Banned(listed, s.devices));
  }

  /** After every cycle of a run that keeps the mode and only adds patterns, the known names are exactly the system's
      names that some pattern matches, with a whitelist, or that none matches, with a blacklist. */
  lemma KnownByPatterns(s: NetState, steps: seq<Step>, os: Os, now: real, name: string)
    requires Inv(s, now) && ClockOk(now, steps + [Cycling(os)]) && AllAllowed(s) && s.settings.autoManage
    requires OnlyAdds(steps)
    ensures Known(Run(s, steps + [Cycling(os)]).devices, name) <==>
            name in os.names &&
            (Matched(s.matches, s.patterns + Added(steps), name) <==> s.mode == Whitelist)
  {
    hide Inv, OsOk, Perform, Matched;
    AutoManageConverges(s, steps, os, now);
    var all := steps + [Cycling(os)];
    assert all[..|steps|] == steps && all[|steps|] == Cycling(os);
    assert Added(all) == Added(steps) by { assert Added(steps) + [] == Added(steps); }
    PolicyAfter(s, all);
    var t := Run(s, all);
    AllowedExactly(t, name);
    assert t.mode == s.mode && t.patterns == s.patterns + Added(steps) && t.matches == s.matches;
    assert Known(t.devices, name) <==> name in os.names && Allowed(t, name);
  }

  // The order of the list

  function Names(devices: seq<DeviceInfo>): (r: seq<string>)
    ensures |r| == |devices| && forall i :: 0 <= i < |r| ==> r[i] == devices[i].name
  {
    seq(|devices|, i requires 0 <= i < |devices| => devices[i].name)
  }

  /** The names that the system has, in order. */
  function Kept(names: seq<string>, system: seq<string>): (r: seq<string>)
    ensures forall n :: n in r ==> n in names
  {
    if names == [] then []
    else if names[0] in system then [names[0]] + Kept(names[1..], system)
    else Kept(names[1..], system)
  }

  /** The system's names that are allowed and not known yet, each once, in the system's order. */
  function Newcomers(s: NetState, system: seq<string>): seq<string> {
    if system == [] then []
    else
      var rest, last := Newcomers(s, system[..|system| - 1]), system[|system| - 1];
      if Allowed(s, last) && !Known(s.devices, last) && last !in rest then rest + [last] else rest
  }

  lemma {:induction false} EraseOrder(devices: seq<DeviceInfo>, name: string, system: seq<string>)
    requires DistinctNames(devices) && name !in system
    ensures Kept(Names(EraseFirst(devices, name)), system) == Kept(Names(devices), system)
  {
    if devices != [] {
      assert Names(devices)[1..] == Names(devices[1..]);
      if devices[0].name != name {
        EraseOrder(devices[1..], name, system);
        var left := EraseFirst(devices, name);
        assert left[1..] == EraseFirst(devices[1..], name);
        assert Names(left)[1..] == Names(left[1..]);
      }
    }
  }

  lemma {:induction false} KeptAll(names: seq<string>, system: seq<string>)
    requires forall n :: n in names ==> n in system
    ensures Kept(names, system) == names
  {
    if names != [] {
      assert names == [names[0]] + names[1..];
      KeptAll(names[1..], system);
    }
  }

  lemma {:induction false} RemoveOrder(s: NetState, gone: seq<string>, system: seq<string>)
    requires DistinctNames(s.devices) && forall n :: n in gone ==> n !in system
    ensures DistinctNames(RemoveAll(s, gone).devices)
    ensures Kept(Names(RemoveAll(s, gone).devices), system) == Kept(Names(s.devices), system)
  {
    if gone != [] {
      var front, last := gone[..|gone| - 1], gone[|gone| - 1];
      var t := RemoveAll(s, front);
      RemoveOrder(s, front, system);
      EraseFirstSpec(t.devices, last);
      EraseOrder(t.devices, last, system);
    }
  }

  lemma {:induction false} AddOrder(s: NetState, names: seq<string>, os: Os)
    requires forall n :: n in names ==> n in s.systemNames
    ensures Names(AddAll(s, names, os).devices) == Names(s.devices) + Newcomers(s, names)
  {
    if names != [] {
      var front, last := names[..|names| - 1], names[|names| - 1];
      var t := AddAll(s, front, os);
      AddOrder(s, front, os);
      AddAllSettings(s, front, os);
      KnownNames(t.devices, last);
      KnownNames(s.devices, last);
      assert Allowed(t, last) == Allowed(s, last);
      assert last in names;
    }
  }

  lemma KnownNames(devices: seq<DeviceInfo>, name: string)
    ensures Known(devices, name) <==> name in Names(devices)
  {
    FindSpec(devices, name);
    if name in Names(devices) {
      var i :| 0 <= i < |devices| && Names(devices)[i] == name;
      assert devices[i].name == name;
    }
  }

  /** Leaving out the known names and the removed devices first makes no difference. */
  lemma {:induction false} NewcomersSame(s: NetState, t: NetState, system: seq<string>)
    requires forall n :: Allowed(t, n) == Allowed(s, n)
    requires forall n :: Known(t.devices, n) ==> Known(s.devices, n)
    ensures Newcomers(t, Unknown(s.devices, system)) == Newcomers(s, system)
  {
    if system != [] {
      var front := system[..|system| - 1];
      NewcomersSame(s, t, front);
      var unknown := Unknown(s.devices, system);
      if !Known(s.devices, system[|system| - 1]) { assert unknown[..|unknown| - 1] == Unknown(s.devices, front); }
    }
  }

  lemma ManageOrder(s: NetState, os: Os, now: real)
    requires Inv(s, now) && s.settings.autoManage
    ensures Names(Manage(s, os).devices) == Kept(Names(s.devices), os.names) + Newcomers(s, os.names)
  {
    hide RemoveAll, AddAll, Newcomers, Kept, Unknown, Vanished;
    var named := s.(systemNames := os.names);
    var gone, added := Vanished(s.devices, os.names), Unknown(s.devices, os.names);
    var removed := RemoveAll(named, gone);
    VanishedSpec(s.devices, os.names);
    UnknownSpec(s.devices, os.names);
    RemovedKnown(named, gone, now);
    RemoveOrder(named, gone, os.names);
    KeptAll(Names(removed.devices), os.names);
    AddOrder(removed, added, os);
    NewcomersSame(s, removed, os.names);
  }

  /** Only names that the system has are left. */
  lemma RemovedKnown(s: NetState, gone: seq<string>, now: real)
    requires Inv(s, now) && gone == Vanished(s.devices, s.systemNames)
    ensures var t := RemoveAll(s, gone);
            && (forall n :: Allowed(t, n) == Allowed(s, n)) && t.systemNames == s.systemNames
            && (forall n :: Known(t.devices, n) ==> Known(s.devices, n))
            && (forall n :: n in Names(t.devices) ==> n in s.systemNames)
  {
    hide Vanished;
    VanishedSpec(s.devices, s.systemNames);
    forall i | 0 <= i < |gone| ensures Known(s.devices, gone[i]) {
      assert gone[i] in gone;
      FindSpec(s.devices, gone[i]);
    }
    RemoveAllKeeps(s, gone, now);
    var t := RemoveAll(s, gone);
    forall n | n in Names(t.devices) ensures n in s.systemNames {
      var i :| 0 <= i < |t.devices| && t.devices[i].name == n;
      assert t.devices[i] in t.devices;
    }
  }

  /** Maintaining keeps the names and their order. */
  lemma {:induction false} MaintainNames(s: NetState, k: nat, os: Os)
    requires k <= |s.devices|
    ensures Names(Maintain(s, k, os).devices) == Names(s.devices)
  {
    if k > 0 { MaintainNames(s, k - 1, os); }
  }

  /** The list after a managed cycle: the devices known before that the system still has, in their order, and behind
      them the allowed new ones in the system's order. */
  lemma CycleOrder(s: NetState, os: Os, now: real)
    requires Inv(s, now) && OsOk(os, now) && s.settings.autoManage
    ensures Names(Cycle(s, os).devices) == Kept(Names(s.devices), os.names) + Newcomers(s, os.names)
  {
    hide Manage, Detect, Maintain, Inv, Kept, Newcomers;
    var t := Detect(Begin(s), os);
    BeginInv(s, now);
    DetectKeeps(Begin(s), os, now);
    DetectSettings(Begin(s), os);
    ManageOrder(t, os, os.checkTime);
    MaintainNames(Manage(t, os), |Manage(t, os).devices|, os);
    NewcomersFrame(s, t, os.names);
    assert Names(Cycle(s, os).devices) == Names(Settled(s, os).devices);
  }

  lemma {:induction false} NewcomersFrame(s: NetState, t: NetState, system: seq<string>)
    requires t.devices == s.devices && t.patterns == s.patterns && t.mode == s.mode && t.matches == s.matches
    ensures Newcomers(t, system) == Newcomers(s, system)
  {
    if system != [] {
      NewcomersFrame(s, t, system[..|system| - 1]);
      assert Allowed(t, system[|system| - 1]) == Allowed(s, system[|system| - 1]);
    }
  }
}
