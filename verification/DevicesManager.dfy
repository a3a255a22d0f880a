/** canscope/device/devices_manager.cc: which devices exist, are open, or are open but gone, as the
    lists of plugged devices come in. */
module DevicesSpec {
  import opened Sequences

  datatype Path = Path(name: string)
  datatype Status = Exist | Online | Offline

  /** The devices with an open device object. */
  function Opened(status: map<Path, Status>): set<Path> {
    set p | p in status && status[p] != Exist
  }

  /** Merging a list of plugged devices: those listed exist, open ones stay while they are away. */
  function Merged(status: map<Path, Status>, list: seq<Path>): map<Path, Status> {
    map p | p in Elements(list) + Opened(status) ::
      if p !in list then Offline
      else if p !in status then Exist
      else if status[p] == Offline then Online
      else status[p]
  }

  /** Some known device changed its status. */
  ghost predicate StateChanged(before: map<Path, Status>, after: map<Path, Status>) {
    exists p :: p in before && p in after && before[p] != after[p]
  }

  /** What the flags of a merge say: a device came or went, or one is listed twice; and a device
      that stays changed its status. */
  ghost predicate FlagsFit(before: map<Path, Status>, list: seq<Path>, listChange: bool, stateChange: bool) {
    && (listChange <==> Merged(before, list).Keys != before.Keys || !Distinct(list))
    && (stateChange <==> StateChanged(before, Merged(before, list)))
  }

  /** Merging opens and closes nothing, and merging the same list again changes nothing. */
  lemma MergeSettles(status: map<Path, Status>, list: seq<Path>)
    ensures Opened(Merged(status, list)) == Opened(status)
    ensures Merged(Merged(status, list), list) == Merged(status, list)
    ensures Distinct(list) ==> FlagsFit(Merged(status, list), list, false, false)
  {
    var once := Merged(status, list);
    assert Opened(once) == Opened(status);
    assert Merged(once, list) == once;
  }

  /** When a device was open it is listed as open or as gone, when it was not it is listed just
      while it is plugged. */
  lemma MergedMeans(status: map<Path, Status>, list: seq<Path>, p: Path)
    ensures p in Opened(status) ==>
              p in Merged(status, list) && Merged(status, list)[p] == if p in list then Online else Offline
    ensures p !in Opened(status) ==>
              (p in Merged(status, list) <==> p in list) && (p in list ==> Merged(status, list)[p] == Exist)
  {
  }

  /** Opening the first listed device. */
  function FirstOpened(status: map<Path, Status>, list: seq<Path>, init: Path -> bool): map<Path, Status> {
    if |list| > 0 && list[0] in status && status[list[0]] == Exist && init(list[0])
    then status[list[0] := Online]
    else status
  }

  /** Opening all that are there and closing all that are gone; init says which opening succeeds. */
  function Settled(status: map<Path, Status>, open: bool, close: bool, init: Path -> bool): map<Path, Status> {
    map p | p in status ::
      if status[p] == Exist && open && init(p) then Online
      else if status[p] == Offline && close then Exist
      else status[p]
  }

  /** A list of devices has changed: a merge changed it, or a device that was gone is closed. */
  ghost predicate ListChanges(before: map<Path, Status>, list: seq<Path>, first: map<Path, Status>, close: bool) {
    || Merged(before, list).Keys != before.Keys || !Distinct(list)
    || (close && Offline in first.Values)
  }

  /** A status has changed, or opening a device was tried. */
  ghost predicate StateChanges(before: map<Path, Status>, list: seq<Path>, first: map<Path, Status>,
                               tried: bool, open: bool)
  {
    StateChanged(before, Merged(before, list)) || tried || (open && Exist in first.Values)
  }

  /** With automatic closing only listed devices stay open, with automatic opening every listed
      device that comes up is open, and a device that is open and listed is never closed. */
  lemma SettledMeans(before: map<Path, Status>, list: seq<Path>,
                     first: bool, open: bool, close: bool, init: Path -> bool)
    ensures var merged := if first then FirstOpened(Merged(before, list), list, init) else Merged(before, list);
            var after := Settled(merged, open, close, init);
            && after.Keys == Elements(list) + Opened(before)
            && (close ==> forall p :: p in Opened(after) ==> p in list)
            && (open ==> forall p :: p in list && init(p) ==> p in Opened(after))
            && forall p :: p in Opened(before) && p in list ==> p in Opened(after)
  {
    assert Merged(before, list).Keys == Elements(list) + Opened(before);
  }

  /** What a changed list makes of the devices, tried telling whether the first one is to be opened: a device
      is open afterwards exactly when it was open and is listed or not closed, or it was not, is listed, comes
      up, and all are to be opened or it is the first. A device that is not listed is known exactly while it
      is open or was; it then is offline, unless it was closed. */
  lemma SettledExactly(before: map<Path, Status>, list: seq<Path>,
                       tried: bool, open: bool, close: bool, init: Path -> bool, p: Path)
    requires tried ==> |list| > 0
    ensures var first := if tried then FirstOpened(Merged(before, list), list, init) else Merged(before, list);
            var after := Settled(first, open, close, init);
            && (p in after <==> p in list || p in Opened(before))
            && (p in Opened(after) <==>
                  if p in Opened(before) then p in list || !close
                  else p in list && init(p) && (open || (tried && p == list[0])))
            && (p in after && after[p] == Offline <==> p in Opened(before) && p !in list && !close)
  {
  }

  /** A notice of a changed list is due exactly when a device came or went, one is listed twice, or an open one
      that is gone is closed. */
  lemma ListChangesExactly(before: map<Path, Status>, list: seq<Path>, tried: bool, close: bool, init: Path -> bool)
    requires tried ==> |list| > 0
    ensures var first := if tried then FirstOpened(Merged(before, list), list, init) else Merged(before, list);
            ListChanges(before, list, first, close) <==>
              || !Distinct(list) || (exists p :: p in list && p !in before)
              || (exists p :: p in before && p !in list && before[p] == Exist)
              || (close && exists p :: p in Opened(before) && p !in list)
  {
    var merged := Merged(before, list);
    var first := if tried then FirstOpened(merged, list, init) else merged;
    forall p ensures p in merged && merged[p] == Offline <==> p in Opened(before) && p !in list {
    }
    forall p ensures p in first && first[p] == Offline <==> p in merged && merged[p] == Offline {
    }
    KnownChanges(before, list);
    if p :| p in Opened(before) && p !in list {
      assert first[p] == Offline;
    }
  }

  lemma KnownChanges(before: map<Path, Status>, list: seq<Path>)
    ensures Merged(before, list).Keys != before.Keys <==>
              || (exists p :: p in list && p !in before)
              || (exists p :: p in before && p !in list && before[p] == Exist)
  {
    var merged := Merged(before, list);
    if p :| p in list && p !in before {
      assert p in merged.Keys && p !in before.Keys;
    }
    if p :| p in before && p !in list && before[p] == Exist {
      assert p !in merged.Keys && p in before.Keys;
    }
    if (forall p :: p in list ==> p in before) && (forall p :: p in before && before[p] == Exist ==> p in list) {
      assert forall p :: p in merged <==> p in before;
      assert merged.Keys == before.Keys;
    }
  }

  /** A notice of a changed status is due exactly when a device that was away is back, an open one has gone, or
      a device was to be opened: the first, or with automatic opening any that is listed and not open by then. */
  lemma StateChangesExactly(before: map<Path, Status>, list: seq<Path>, tried: bool, open: bool, init: Path -> bool)
    requires tried ==> |list| > 0
    ensures var first := if tried then FirstOpened(Merged(before, list), list, init) else Merged(before, list);
            StateChanges(before, list, first, tried, open) <==>
              || (exists p :: p in before && p in list && before[p] == Offline)
              || (exists p :: p in before && p !in list && before[p] == Online)
              || tried
              || (open && exists p :: p in list && p !in Opened(before))
  {
    var merged := Merged(before, list);
    var first := if tried then FirstOpened(merged, list, init) else merged;
    StatusChanges(before, list);
    forall p ensures p in merged && merged[p] == Exist <==> p in list && p !in Opened(before) {
    }
    if !tried {
      if p :| p in list && p !in Opened(before) {
        assert first[p] == Exist;
      }
      if Exist in first.Values {
        var p :| p in first && first[p] == Exist;
      }
    }
  }

  lemma StatusChanges(before: map<Path, Status>, list: seq<Path>)
    ensures StateChanged(before, Merged(before, list)) <==>
              || (exists p :: p in before && p in list && before[p] == Offline)
              || (exists p :: p in before && p !in list && before[p] == Online)
  {
    var merged := Merged(before, list);
    if p :| p in before && p in list && before[p] == Offline {
      assert p in merged && before[p] != merged[p];
    }
    if p :| p in before && p !in list && before[p] == Online {
      assert p in merged && before[p] != merged[p];
    }
  }

  lemma {:induction false} DistinctCounts(list: seq<Path>)
    requires Distinct(list)
    ensures multiset(list) == multiset(Elements(list))
  {
    if list == [] {
      assert Elements(list) == {};
    } else {
      DistinctCounts(list[1..]);
      assert list == [list[0]] + list[1..];
      assert Elements(list) == Elements(list[1..]) + {list[0]};
    }
  }

  lemma RepeatedCounts(list: seq<Path>) returns (p: Path)
    requires !Distinct(list)
    ensures multiset(list)[p] > 1
  {
    var i, j :| 0 <= i < j < |list| && list[i] == list[j];
    p := list[i];
    assert list == list[..j] + list[j..];
    assert p in multiset(list[..j]) && p in multiset(list[j..]) by {
      assert list[..j][i] == p && list[j..][0] == p;
    }
  }
}

/** The class whose maps the merge loops and the open and close operations edit. */
module DevicesManagers {
  import opened Sequences
  import opened DevicesSpec

  datatype Notice = None | DeviceListChanged | DeviceStateChanged

  class DevicesManager {
    const autoOpenFirst: bool
    const autoOpenAll: bool
    const autoCloseOffline: bool
    var openFirst: bool
    var status: map<Path, Status>
    var devices: set<Path>

    /** Exactly the online and offline devices have a device object. */
    predicate Valid()
      reads this
    {
      devices == Opened(status)
    }

    constructor (autoOpenFirst: bool, autoOpenAll: bool, autoCloseOffline: bool)
      requires !(autoOpenFirst && autoOpenAll)
      ensures Valid() && status == map[] && !openFirst
      ensures this.autoOpenFirst == autoOpenFirst && this.autoOpenAll == autoOpenAll
      ensures this.autoCloseOffline == autoCloseOffline
    {
      this.autoOpenFirst, this.autoOpenAll, this.autoCloseOffline := autoOpenFirst, autoOpenAll, autoCloseOffline;
      openFirst, status, devices := false, map[], {};
    }

    /** The walk over the known devices: those listed are struck off the list, the others noted. */
    method Strike(list: seq<Path>) returns (rest: seq<Path>, off: set<Path>, stateChange: bool)
      modifies this`status
      ensures multiset(rest) + multiset(old(status).Keys * Elements(list)) == multiset(list)
      ensures off == old(status).Keys - Elements(list)
      ensures status.Keys == old(status).Keys
      ensures forall p :: p in status ==>
                status[p] == if p in list && old(status)[p] == Offline then Online else old(status)[p]
      ensures stateChange <==> exists p :: p in old(status) && p in list && old(status)[p] == Offline
    {
      rest, off, stateChange := list, {}, false;
      var todo := status.Keys;
      ghost var seen: set<Path> := {};
      while todo != {}
        invariant todo <= old(status).Keys && status.Keys == old(status).Keys
        invariant forall p :: p in seen <==> p in old(status) && p !in todo && p in list
        invariant multiset(rest) + multiset(seen) == multiset(list)
        invariant forall p :: p in off <==> p in old(status) && p !in todo && p !in list
        invariant forall p :: p in status ==>
                    status[p] == if p in seen && old(status)[p] == Offline then Online else old(status)[p]
        invariant stateChange <==> exists p :: p in seen && old(status)[p] == Offline
        decreases todo
      {
        var p :| p in todo;
        StrikeStep(list, rest, seen, p);
        if p in rest {
          rest := Struck(rest, p);
          seen := seen + {p};
          if status[p] == Offline {
            status := status[p := Online];
            stateChange := true;
          }
        } else {
          off := off + {p};
        }
        todo := todo - {p};
      }
      assert seen == old(status).Keys * Elements(list);
    }

    /** The walk over the devices that are gone. */
    method PutOff(off: set<Path>) returns (listChange: bool, stateChange: bool)
      requires off <= status.Keys
      modifies this`status
      ensures status == map p | p in old(status) && (p in off ==> old(status)[p] != Exist) ::
                          if p in off then Offline else old(status)[p]
      ensures listChange <==> exists p :: p in off && old(status)[p] == Exist
      ensures stateChange <==> exists p :: p in off && old(status)[p] == Online
    {
      listChange, stateChange := false, false;
      var todo := off;
      while todo != {}
        invariant todo <= off
        invariant forall p :: p in status <==> p in old(status) && (p in off - todo ==> old(status)[p] != Exist)
        invariant forall p :: p in status ==> status[p] == if p in off - todo then Offline else old(status)[p]
        invariant listChange <==> exists p :: p in off - todo && old(status)[p] == Exist
        invariant stateChange <==> exists p :: p in off - todo && old(status)[p] == Online
        decreases todo
      {
        var p :| p in todo;
        if status[p] == Exist {
          status := status - {p};
          listChange := true;
        } else if status[p] == Online {
          status := status[p := Offline];
          stateChange := true;
        }
        todo := todo - {p};
      }
    }

    /** The walk over what is left of the list; a known device is not overwritten. */
    method Insert(rest: seq<Path>)
      modifies this`status
      ensures forall p :: p in status <==> p in old(status) || p in rest
      ensures forall p :: p in status ==> status[p] == if p in old(status) then old(status)[p] else Exist
    {
      for i := 0 to |rest|
        invariant forall p :: p in status <==> p in old(status) || p in rest[..i]
        invariant forall p :: p in status ==> status[p] == if p in old(status) then old(status)[p] else Exist
      {
        if rest[i] !in status {
          status := status[rest[i] := Exist];
        }
      }
    }

    method Merge(list: seq<Path>) returns (listChange: bool, stateChange: bool)
      requires Valid()
      modifies this`status
      ensures Valid() && status == Merged(old(status), list)
      ensures FlagsFit(old(status), list, listChange, stateChange)
    {
      MergeSettles(status, list);
      var rest, off, turned;
      rest, off, stateChange := Strike(list);
      RestMeans(old(status), list, rest);
      listChange, turned := PutOff(off);
      stateChange := stateChange || turned;
      Insert(rest);
      listChange := listChange || rest != [];
      assert status == Merged(old(status), list);
      FlagsMean(old(status), list);
    }

    /** init says whether the new device object comes up. */
    method OpenDeviceImpl(path: Path, init: bool) returns (ret: bool)
      requires Valid()
      modifies this`status, this`devices
      ensures Valid()
      ensures ret <==> path in old(status) && old(status)[path] == Exist && init
      ensures status == if ret then old(status)[path := Online] else old(status)
    {
      if path !in status || status[path] == Online || status[path] == Offline || !init {
        return false;
      }
      status := status[path := Online];
      devices := devices + {path};
      ret := true;
    }

    method CloseDeviceImpl(path: Path) returns (ret: bool)
      requires Valid()
      modifies this`status, this`devices
      ensures Valid()
      ensures ret <==> path in Opened(old(status))
      ensures status == if ret then old(status)[path := Exist] else old(status)
    {
      if path !in status || status[path] == Exist {
        return false;
      }
      assert path in devices;
      status := status[path := Exist];
      devices := devices - {path};
      ret := true;
    }

    method OpenAll(paths: set<Path>, init: Path -> bool)
      requires Valid() && forall p :: p in paths ==> p in status && status[p] == Exist
      modifies this`status, this`devices
      ensures Valid() && status.Keys == old(status).Keys
      ensures forall p :: p in status ==> status[p] == if p in paths && init(p) then Online else old(status)[p]
    {
      var todo := paths;
      while todo != {}
        invariant Valid() && todo <= paths && status.Keys == old(status).Keys
        invariant forall p :: p in status ==>
                    status[p] == if p in paths - todo && init(p) then Online else old(status)[p]
        decreases todo
      {
        var p :| p in todo;
        var _ := OpenDeviceImpl(p, init(p));
        todo := todo - {p};
      }
    }

    method CloseAll(paths: set<Path>)
      requires Valid() && paths <= devices
      modifies this`status, this`devices
      ensures Valid() && status.Keys == old(status).Keys
      ensures forall p :: p in status ==> status[p] == if p in paths then Exist else old(status)[p]
    {
      var todo := paths;
      while todo != {}
        invariant Valid() && todo <= paths && todo <= devices && status.Keys == old(status).Keys
        invariant forall p :: p in status ==> status[p] == if p in paths - todo then Exist else old(status)[p]
        decreases todo
      {
        var p :| p in todo;
        var _ := CloseDeviceImpl(p);
        todo := todo - {p};
      }
    }

    /** Opening what can be opened and closing what is gone, from one snapshot of the list. */
    method AutoOpenAndClose(init: Path -> bool) returns (anyOpen: bool, anyClosed: bool)
      requires Valid()
      modifies this`status, this`devices
      ensures Valid() && status == Settled(old(status), autoOpenAll, autoCloseOffline, init)
      ensures !anyOpen && !anyClosed ==> status == old(status)
      ensures anyOpen <==> autoOpenAll && Exist in old(status).Values
      ensures anyClosed <==> autoCloseOffline && Offline in old(status).Values
    {
      var now := status;
      var needOpen := set p | p in now && now[p] == Exist;
      var needClose := set p | p in now && now[p] == Offline;
      anyOpen, anyClosed := false, false;
      if autoOpenAll {
        OpenAll(needOpen, init);
        anyOpen := needOpen != {};
      }
      if autoCloseOffline {
        CloseAll(needClose);
        anyClosed := needClose != {};
      }
    }

    method MayOpenFirst(list: seq<Path>, init: Path -> bool) returns (tried: bool)
      requires Valid()
      modifies this
      ensures Valid() && status == if tried then FirstOpened(old(status), list, init) else old(status)
      ensures tried <==> autoOpenFirst && !old(openFirst) && |list| > 0
      ensures openFirst == if tried then list[0] in old(status) && old(status)[list[0]] == Exist && init(list[0])
                           else old(openFirst)
    {
      tried := autoOpenFirst && !openFirst && |list| > 0;
      if tried {
        openFirst := OpenDeviceImpl(list[0], init(list[0]));
      }
    }

    /** One notice at most: of a changed list, or else of a changed status or an attempt to open;
        without a notice nothing has changed. */
    method OnDeviceListChanged(list: seq<Path>, init: Path -> bool) returns (notice: Notice)
      requires Valid()
      modifies this
      ensures Valid()
      ensures var merged := Merged(old(status), list);
              var first := if autoOpenFirst && !old(openFirst) then FirstOpened(merged, list, init) else merged;
              status == Settled(first, autoOpenAll, autoCloseOffline, init)
      ensures var tried := autoOpenFirst && !old(openFirst) && |list| > 0;
              var merged := Merged(old(status), list);
              var first := if tried then FirstOpened(merged, list, init) else merged;
              notice == if ListChanges(old(status), list, first, autoCloseOffline) then DeviceListChanged
                        else if StateChanges(old(status), list, first, tried, autoOpenAll) then DeviceStateChanged
                        else None
      ensures notice == None ==> status == old(status)
      ensures openFirst == if autoOpenFirst && !old(openFirst) && |list| > 0
                           then list[0] !in Opened(old(status)) && init(list[0]) else old(openFirst)
    {
      var listChange, stateChange := Merge(list);
      var tried := MayOpenFirst(list, init);
      NothingToOpen(status, init);
      var anyOpen, anyClosed := false, false;
      if autoOpenAll || autoCloseOffline {
        anyOpen, anyClosed := AutoOpenAndClose(init);
      }
      stateChange := stateChange || tried || anyOpen;
      listChange := listChange || anyClosed;
      notice := if listChange then DeviceListChanged else if stateChange then DeviceStateChanged else None;
    }

    method DestroyDevicesImpl()
      requires Valid()
      modifies this`status, this`devices
      ensures Valid() && devices == {} && status.Keys == old(status).Keys
    {
      CloseAll(devices);
    }
  }

  lemma NothingToOpen(status: map<Path, Status>, init: Path -> bool)
    ensures Settled(status, false, false, init) == status
  {
  }

  /** The list without the first entry equal to p. */
  function Struck(list: seq<Path>, p: Path): (rest: seq<Path>)
    requires p in list
    ensures multiset(rest) + multiset{p} == multiset(list)
  {
    if list[0] == p then
      assert list == [p] + list[1..];
      list[1..]
    else
      assert list == [list[0]] + list[1..];
      [list[0]] + Struck(list[1..], p)
  }

  lemma StrikeStep(list: seq<Path>, rest: seq<Path>, seen: set<Path>, p: Path)
    requires multiset(rest) + multiset(seen) == multiset(list) && p !in seen
    ensures p in rest <==> p in list
    ensures p in rest ==> multiset(Struck(rest, p)) + multiset(seen + {p}) == multiset(list)
  {
    assert multiset(rest)[p] == multiset(list)[p];
    assert p in rest <==> p in multiset(rest);
    assert p in list <==> p in multiset(list);
    assert multiset(seen + {p}) == multiset(seen) + multiset{p};
  }

  /** What is left of the list after striking off the known devices. */
  lemma RestMeans(status: map<Path, Status>, list: seq<Path>, rest: seq<Path>)
    requires multiset(rest) + multiset(status.Keys * Elements(list)) == multiset(list)
    ensures forall p :: p in rest ==> p in list
    ensures forall p :: p in list && p !in status ==> p in rest
    ensures rest == [] <==> Distinct(list) && Elements(list) <= status.Keys
  {
    forall p ensures p in rest ==> p in list {
      assert p in rest ==> p in multiset(rest);
      assert p in multiset(list) ==> p in list;
    }
    forall p | p in list && p !in status ensures p in rest {
      assert p in multiset(list);
      assert p in multiset(rest);
    }
    var known := status.Keys * Elements(list);
    if Distinct(list) && Elements(list) <= status.Keys {
      DistinctCounts(list);
      assert known == Elements(list);
      assert multiset(rest) == multiset{};
    }
    if !Distinct(list) {
      var p := RepeatedCounts(list);
      assert multiset(rest)[p] > 0;
      assert p in rest;
    }
    if rest == [] {
      assert multiset(list) == multiset(known);
      forall p | p in Elements(list) ensures p in status.Keys {
        assert p in multiset(list);
      }
    }
  }

  /** The conditions that the walks test are the changes that the flags report. */
  lemma FlagsMean(status: map<Path, Status>, list: seq<Path>)
    ensures Merged(status, list).Keys != status.Keys <==>
              || !(Elements(list) <= status.Keys)
              || exists p :: p in status.Keys - Elements(list) && status[p] == Exist
    ensures StateChanged(status, Merged(status, list)) <==>
              || (exists p :: p in status && p in list && status[p] == Offline)
              || exists p :: p in status.Keys - Elements(list) && status[p] == Online
  {
    var after := Merged(status, list);
    if after.Keys != status.Keys {
      if Elements(list) <= status.Keys {
        assert after.Keys <= status.Keys;
        var p :| p in status.Keys && p !in after.Keys;
        assert p in status.Keys - Elements(list);
      }
    } else {
      assert Elements(list) <= after.Keys;
      forall p | p in status.Keys - Elements(list) ensures status[p] != Exist {
        assert p in after.Keys;
      }
    }
    if StateChanged(status, after) {
      var p :| p in status && p in after && status[p] != after[p];
      assert p !in list ==> p in status.Keys - Elements(list);
    }
    if p :| p in status && p in list && status[p] == Offline {
      assert p in after && status[p] != after[p];
    }
    if p :| p in status.Keys - Elements(list) && status[p] == Online {
      assert p in after && status[p] != after[p];
    }
  }
}
