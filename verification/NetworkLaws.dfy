/** What every operation of the monitor keeps, and that every operation logs exactly what it changes. */
module NetworkLaws {
  import opened Basics
  import opened Addresses
  import opened NetworkModel
  import opened EventLog

  ghost predicate DistinctNames(devices: seq<DeviceInfo>) {
    forall i, j :: 0 <= i < j < |devices| ==> devices[i].name != devices[j].name
  }

  ghost predicate DistinctPairs(macs: seq<Entity>) {
    forall i, j :: 0 <= i < j < |macs| ==> !Is(macs[j], macs[i].mac, macs[i].device)
  }

  ghost predicate EntryOk(devices: seq<DeviceInfo>, e: Entity, now: real) {
    && Known(devices, e.device)
    && e.mac != ZERO_MAC && e.mac != BROADCAST_MAC
    && 0.0 <= e.firstSeen <= e.lastSeen <= now
  }

  /** The table invariant at clock time now. */
  ghost predicate Inv(s: NetState, now: real) {
    && 0.0 <= now
    && DistinctNames(s.devices)
    && (forall i :: 0 <= i < |s.devices| ==> s.devices[i].mac != "")
    && DistinctPairs(s.macs)
    && (forall i :: 0 <= i < |s.macs| ==> EntryOk(s.devices, s.macs[i], now))
  }

  /** The clock never runs backwards, within a cycle or between cycles. */
  ghost predicate OsOk(os: Os, now: real) {
    && 0.0 <= now <= os.start
    && (forall k: nat :: os.start <= os.reading(k).at <= os.checkTime)
    && (forall j: nat, k: nat :: j <= k ==> os.reading(j).at <= os.reading(k).at)
  }

  // Finding devices

  lemma {:induction false} FindSpec(devices: seq<DeviceInfo>, name: string)
    ensures Find(devices, name).None? ==> forall i :: 0 <= i < |devices| ==> devices[i].name != name
    ensures Find(devices, name).Some? ==>
              exists i :: 0 <= i < |devices| && devices[i].name == name && Find(devices, name) == Some(devices[i])
  {
    if devices != [] && devices[0].name != name {
      FindSpec(devices[1..], name);
      if Find(devices, name).Some? {
        var i :| 0 <= i < |devices[1..]| && devices[1..][i].name == name &&
            Find(devices, name) == Some(devices[1..][i]);
        assert devices[i + 1] == devices[1..][i];
      } else {
        forall i | 0 <= i < |devices| ensures devices[i].name != name {
          if i > 0 { assert devices[i] == devices[1..][i - 1]; }
        }
      }
    }
  }

  lemma FindAt(devices: seq<DeviceInfo>, i: nat)
    requires DistinctNames(devices) && i < |devices|
    ensures Find(devices, devices[i].name) == Some(devices[i])
  {
    FindSpec(devices, devices[i].name);
  }

  /** Replacing a record under its own name changes what is found under that name only. */
  lemma FindUpdate(devices: seq<DeviceInfo>, i: nat, d: DeviceInfo, name: string)
    requires DistinctNames(devices) && i < |devices| && d.name == devices[i].name
    ensures DistinctNames(devices[i := d])
    ensures Find(devices[i := d], name) == if name == d.name then Some(d) else Find(devices, name)
  {
    FindSpec(devices, name);
    FindSpec(devices[i := d], name);
    FindAt(devices[i := d], i);
    if name != d.name && Find(devices, name).Some? {
      var j :| 0 <= j < |devices| && devices[j].name == name && Find(devices, name) == Some(devices[j]);
      FindAt(devices[i := d], j);
    }
  }

  lemma FindAppend(devices: seq<DeviceInfo>, d: DeviceInfo, name: string)
    requires DistinctNames(devices) && !Known(devices, d.name)
    ensures DistinctNames(devices + [d])
    ensures Find(devices + [d], name) == if name == d.name then Some(d) else Find(devices, name)
  {
    FindSpec(devices, d.name);
    FindSpec(devices, name);
    FindSpec(devices + [d], name);
    FindAt(devices + [d], |devices|);
    if name != d.name && Find(devices, name).Some? {
      var j :| 0 <= j < |devices| && devices[j].name == name && Find(devices, name) == Some(devices[j]);
      FindAt(devices + [d], j);
    }
  }

  lemma {:induction false} EraseFirstSpec(devices: seq<DeviceInfo>, name: string)
    requires DistinctNames(devices)
    ensures DistinctNames(EraseFirst(devices, name))
    ensures forall d :: d in EraseFirst(devices, name) <==> d in devices && d.name != name
  {
    if devices != [] {
      assert devices == [devices[0]] + devices[1..];
      if devices[0].name == name {
        assert forall d :: d in devices[1..] ==> d.name != name;
      } else {
        EraseFirstSpec(devices[1..], name);
        var rest := EraseFirst(devices[1..], name);
        forall i, j | 0 <= i < j < |[devices[0]] + rest|
          ensures ([devices[0]] + rest)[i].name != ([devices[0]] + rest)[j].name
        {
          if i == 0 { assert rest[j - 1] in devices[1..]; }
        }
      }
    }
  }

  lemma FindErased(devices: seq<DeviceInfo>, name: string, other: string)
    requires DistinctNames(devices)
    ensures Find(EraseFirst(devices, name), other) == if other == name then None else Find(devices, other)
  {
    var left := EraseFirst(devices, name);
    EraseFirstSpec(devices, name);
    FindSpec(left, other);
    FindSpec(devices, other);
    if other != name && Find(devices, other).Some? {
      var j :| 0 <= j < |devices| && devices[j].name == other && Find(devices, other) == Some(devices[j]);
      assert devices[j] in left;
      var k :| 0 <= k < |left| && left[k] == devices[j];
      FindAt(left, k);
    }
  }

  // Devices

  lemma AddDeviceKeeps(s: NetState, name: string, os: Os, now: real)
    requires Inv(s, now)
    ensures Inv(AddDevice(s, name, os), now)
    ensures Logged(s, AddDevice(s, name, os))
  {
    var t := AddDevice(s, name, os);
    if Allowed(s, name) && !Known(s.devices, name) && name in s.systemNames {
      var d := t.devices[|s.devices|];
      forall n ensures Find(t.devices, n) == if n == name then Some(d) else Find(s.devices, n) {
        FindAppend(s.devices, d, n);
      }
      FindAppend(s.devices, d, name);
      var log := [DeviceAdded(name), DeviceEvidenceChanged(name, "mac", d.mac, "")];
      assert t.events[|s.events|..] == log;
      forall a: Aspect ensures Explains(FactOf(s, a), a, log, FactOf(t, a)) {
        var f := FactOf(s, a);
        ExplainsOne(f, a, log[0]);
        ExplainsMore(f, a, [log[0]], Apply(f, a, log[0]), log[1]);
        assert [log[0]] + [log[1]] == log;
      }
    } else {
      LoggedSilent(s, t);
    }
  }

  /** Entries that go away, one event each. */
  lemma {:induction false} SurvivorsSpec(macs: seq<Entity>, doom: Doom)
    ensures forall e :: e in Survivors(macs, doom) <==> e in macs && !doom.Hits(e)
    ensures DistinctPairs(macs) ==> DistinctPairs(Survivors(macs, doom))
  {
    if macs != [] {
      var front, last := macs[..|macs| - 1], macs[|macs| - 1];
      SurvivorsSpec(front, doom);
      assert macs == front + [last];
      if DistinctPairs(macs) {
        assert forall e :: e in Survivors(front, doom) ==> e in front;
        assert forall e :: e in front ==> !Is(last, e.mac, e.device);
      }
    }
  }

  /** Dropping is a filter that keeps the order. */
  lemma {:induction false} SurvivorsConcat(x: seq<Entity>, y: seq<Entity>, doom: Doom)
    ensures Survivors(x + y, doom) == Survivors(x, doom) + Survivors(y, doom)
    ensures Farewells(x + y, doom) == Farewells(x, doom) + Farewells(y, doom)
  {
    if y == [] {
      assert x + y == x;
    } else {
      SurvivorsConcat(x, y[..|y| - 1], doom);
      assert (x + y)[..|x + y| - 1] == x + y[..|y| - 1];
    }
  }

  /** The table after the first k entries were looked at. */
  function Dropped(macs: seq<Entity>, doom: Doom, k: nat): seq<Entity>
    requires k <= |macs|
  {
    Survivors(macs[..k], doom) + macs[k..]
  }

  lemma DroppedNothing(macs: seq<Entity>, doom: Doom)
    ensures Dropped(macs, doom, 0) == macs && Farewells(macs[..0], doom) == []
  {
    assert macs[..0] == [] && [] + macs[0..] == macs;
  }

  lemma DroppedStep(macs: seq<Entity>, doom: Doom, k: nat)
    requires k < |macs|
    ensures doom.Hits(macs[k]) ==>
              && Dropped(macs, doom, k) == Survivors(macs[..k], doom) + [macs[k]] + macs[k + 1..]
              && Dropped(macs, doom, k + 1) == Survivors(macs[..k], doom) + macs[k + 1..]
              && Farewells(macs[..k + 1], doom) ==
                  Farewells(macs[..k], doom) + [MacDisappeared(macs[k].device, macs[k].mac)]
    ensures !doom.Hits(macs[k]) ==>
              && Dropped(macs, doom, k + 1) == Dropped(macs, doom, k)
              && Farewells(macs[..k + 1], doom) == Farewells(macs[..k], doom)
  {
    assert macs[..k + 1][..k] == macs[..k] && macs[..k + 1][k] == macs[k];
    assert macs[k..] == [macs[k]] + macs[k + 1..];
  }

  lemma DroppedPair(macs: seq<Entity>, doom: Doom, k: nat, mac: string, device: string)
    requires DistinctPairs(macs) && k < |macs| && doom.Hits(macs[k])
    ensures Listed(Dropped(macs, doom, k + 1), mac, device) ==
            (Listed(Dropped(macs, doom, k), mac, device) && !Is(macs[k], mac, device))
    ensures Is(macs[k], mac, device) ==> Listed(Dropped(macs, doom, k), mac, device)
  {
    DroppedStep(macs, doom, k);
    SurvivorsSpec(macs[..k], doom);
    var kept := Survivors(macs[..k], doom);
    if Is(macs[k], mac, device) {
      assert Is(Dropped(macs, doom, k)[|kept|], mac, device);
      forall e | e in kept + macs[k + 1..] ensures !Is(e, mac, device) {
        assert e in macs[..k] || e in macs[k + 1..];
      }
    } else {
      ListedSplit(kept, [macs[k]], macs[k + 1..], mac, device);
    }
  }

  lemma {:induction false} DropFirst(macs: seq<Entity>, doom: Doom, k: nat, mac: string, device: string)
    requires DistinctPairs(macs) && k <= |macs|
    ensures Explains(Present(Listed(macs, mac, device)), OfPair(mac, device), Farewells(macs[..k], doom),
                     Present(Listed(Dropped(macs, doom, k), mac, device)))
  {
    hide Survivors, Farewells, Listed, DistinctPairs;
    if k == 0 {
      DroppedNothing(macs, doom);
    } else {
      DropFirst(macs, doom, k - 1, mac, device);
      DroppedStep(macs, doom, k - 1);
      var last := macs[k - 1];
      if doom.Hits(last) {
        DroppedPair(macs, doom, k - 1, mac, device);
        ExplainsMore(Present(Listed(macs, mac, device)), OfPair(mac, device), Farewells(macs[..k - 1], doom),
                     Present(Listed(Dropped(macs, doom, k - 1), mac, device)), MacDisappeared(last.device, last.mac));
      }
    }
  }

  lemma {:induction false} FarewellsKind(macs: seq<Entity>, doom: Doom)
    ensures forall i :: 0 <= i < |Farewells(macs, doom)| ==> Farewells(macs, doom)[i].MacDisappeared?
  {
    if macs != [] {
      FarewellsKind(macs[..|macs| - 1], doom);
    }
  }

  lemma ListedSplit(x: seq<Entity>, y: seq<Entity>, z: seq<Entity>, mac: string, device: string)
    requires !Listed(y, mac, device)
    ensures Listed(x + y + z, mac, device) == Listed(x + z, mac, device)
  {
    if Listed(x + y + z, mac, device) {
      var i :| 0 <= i < |x + y + z| && Is((x + y + z)[i], mac, device);
      assert forall k :: 0 <= k < |y| ==> (x + y + z)[|x| + k] == y[k];
      assert i < |x| || i - |x| >= |y|;
      var j := if i < |x| then i else i - |y|;
      assert Is((x + z)[j], mac, device);
    }
    if Listed(x + z, mac, device) {
      var i :| 0 <= i < |x + z| && Is((x + z)[i], mac, device);
      var j := if i < |x| then i else i + |y|;
      assert Is((x + y + z)[j], mac, device);
    }
  }

  /** Dropping entries logs one Disappeared event for each of them. */
  lemma DropLogged(s: NetState, doom: Doom)
    requires DistinctPairs(s.macs)
    ensures Logged(s, Drop(s, doom))
  {
    var t := Drop(s, doom);
    assert t.events[|s.events|..] == Farewells(s.macs, doom);
    forall a: Aspect ensures Explains(FactOf(s, a), a, t.events[|s.events|..], FactOf(t, a)) {
      if a.OfPair? {
        DropFirst(s.macs, doom, |s.macs|, a.mac, a.device);
        assert s.macs[..|s.macs|] == s.macs;
        assert Dropped(s.macs, doom, |s.macs|) == t.macs;
      } else {
        FarewellsKind(s.macs, doom);
        ExplainsNothing(FactOf(s, a), a, Farewells(s.macs, doom));
      }
    }
  }

  lemma RemoveDeviceKeeps(s: NetState, name: string, now: real)
    requires Inv(s, now) && Known(s.devices, name)
    ensures Inv(RemoveDevice(s, name), now)
    ensures Logged(s, RemoveDevice(s, name))
    ensures forall d :: d in RemoveDevice(s, name).devices <==> d in s.devices && d.name != name
    ensures forall other :: Find(RemoveDevice(s, name).devices, other) ==
                            if other == name then None else Find(s.devices, other)
  {
    var erased := s.(devices := EraseFirst(s.devices, name), events := s.events + [DeviceRemoved(name)]);
    var t := RemoveDevice(s, name);
    forall other ensures Find(erased.devices, other) == if other == name then None else Find(s.devices, other) {
      FindErased(s.devices, name, other);
    }
    assert erased.events[|s.events|..] == [DeviceRemoved(name)];
    assert Logged(s, erased) by {
      forall a: Aspect ensures Explains(FactOf(s, a), a, [DeviceRemoved(name)], FactOf(erased, a)) {
        ExplainsOne(FactOf(s, a), a, DeviceRemoved(name));
      }
    }
    DropLogged(erased, OnDevice(name));
    LoggedTransitive(s, erased, t);
    EraseFirstSpec(s.devices, name);
    SurvivorsSpec(s.macs, OnDevice(name));
    forall i | 0 <= i < |t.macs| ensures EntryOk(t.devices, t.macs[i], now) {
      assert t.macs[i] in s.macs;
    }
    forall i | 0 <= i < |t.devices| ensures t.devices[i].mac != "" {
      assert t.devices[i] in s.devices;
    }
  }

  lemma {:induction false} RemoveAllKeeps(s: NetState, names: seq<string>, now: real)
    requires Inv(s, now)
    requires forall i :: 0 <= i < |names| ==> Known(s.devices, names[i])
    requires forall i, j :: 0 <= i < j < |names| ==> names[i] != names[j]
    ensures Inv(RemoveAll(s, names), now)
    ensures Logged(s, RemoveAll(s, names))
    ensures RemoveAll(s, names) == s.(devices := RemoveAll(s, names).devices, macs := RemoveAll(s, names).macs,
                                      events := RemoveAll(s, names).events)
    ensures forall d :: d in RemoveAll(s, names).devices <==> d in s.devices && d.name !in names
    ensures forall other :: Find(RemoveAll(s, names).devices, other) ==
                            if other in names then None else Find(s.devices, other)
  {
    if names == [] {
      LoggedSilent(s, s);
    } else {
      var front, last := names[..|names| - 1], names[|names| - 1];
      var t := RemoveAll(s, front);
      RemoveAllKeeps(s, front, now);
      assert last !in front;
      assert Find(t.devices, last) == Find(s.devices, last);
      RemoveDeviceKeeps(t, last, now);
      LoggedTransitive(s, t, RemoveDevice(t, last));
      assert names == front + [last];
    }
  }

  lemma {:induction false} AddAllKeeps(s: NetState, names: seq<string>, os: Os, now: real)
    requires Inv(s, now)
    ensures Inv(AddAll(s, names, os), now)
    ensures Logged(s, AddAll(s, names, os))
    ensures AddAll(s, names, os) == s.(devices := AddAll(s, names, os).devices, events := AddAll(s, names, os).events)
    ensures forall n :: Known(AddAll(s, names, os).devices, n) <==>
                        Known(s.devices, n) || (n in names && Allowed(s, n) && n in s.systemNames)
  {
    if names == [] {
      LoggedSilent(s, s);
    } else {
      var front, last := names[..|names| - 1], names[|names| - 1];
      var t := AddAll(s, front, os);
      var u := AddDevice(t, last, os);
      AddAllKeeps(s, front, os, now);
      AddDeviceKeeps(t, last, os, now);
      LoggedTransitive(s, t, u);
      assert names == front + [last];
      forall n ensures Known(u.devices, n) <==>
                       Known(t.devices, n) || (n == last && Allowed(s, n) && n in s.systemNames)
      {
        if u != t { FindAppend(t.devices, u.devices[|t.devices|], n); }
      }
    }
  }

  lemma {:induction false} BannedSpec(s: NetState, devices: seq<DeviceInfo>)
    requires DistinctNames(devices)
    ensures forall n :: n in Banned(s, devices) <==>
            (exists i :: 0 <= i < |devices| && devices[i].name == n) && !Allowed(s, n)
    ensures forall i, j :: 0 <= i < j < |Banned(s, devices)| ==> Banned(s, devices)[i] != Banned(s, devices)[j]
    ensures Banned(s, devices) != [] ==> Banned(s, devices)[0] in Banned(s, devices)
  {
    if devices != [] {
      var front, last := devices[..|devices| - 1], devices[|devices| - 1];
      BannedSpec(s, front);
      assert devices == front + [last];
    }
  }

  lemma {:induction false} VanishedSpec(devices: seq<DeviceInfo>, names: seq<string>)
    requires DistinctNames(devices)
    ensures forall n :: n in Vanished(devices, names) <==>
                        (exists i :: 0 <= i < |devices| && devices[i].name == n) && n !in names
    ensures forall i, j :: 0 <= i < j < |Vanished(devices, names)| ==>
                             Vanished(devices, names)[i] != Vanished(devices, names)[j]
  {
    if devices != [] {
      var front, last := devices[..|devices| - 1], devices[|devices| - 1];
      VanishedSpec(front, names);
      assert devices == front + [last];
    }
  }

  lemma {:induction false} UnknownSpec(devices: seq<DeviceInfo>, names: seq<string>)
    ensures forall n :: n in Unknown(devices, names) <==> n in names && !Known(devices, n)
  {
    if names != [] {
      UnknownSpec(devices, names[..|names| - 1]);
      assert names == names[..|names| - 1] + [names[|names| - 1]];
    }
  }
}
