/** The controller's maps through a snapshot: saving lists them, loading rebuilds them or stores nothing. */
module SnapshotState {
  import opened Bytes
  import opened JsonScan
  import opened JsonLines
  import opened JsonObjects
  import opened JsonArrays
  import opened RuntimeStates
  import opened SnapshotNames
  import opened SnapshotPrint
  import opened SnapshotRecords
  import opened SnapshotDocument
  import opened Snapshot
  import opened Listings

  // ----- a map and the sequence that lists it -----

  function TeidOf(c: PdpContext): uint32 {
    c.teid
  }

  function ImsiOf(c: UeContext): string {
    c.imsi
  }

  function NameOf(e: (string, bool)): string {
    e.0
  }

  function StateOf(e: (string, bool)): bool {
    e.1
  }

  function PdpTable(pdps: seq<PdpContext>): map<uint32, PdpContext> {
    Table(TeidOf, Itself, pdps)
  }

  function UeTable(ues: seq<UeContext>): map<string, UeContext> {
    Table(ImsiOf, Itself, ues)
  }

  function IfaceTable(ifaces: seq<(string, bool)>): map<string, bool> {
    Table(NameOf, StateOf, ifaces)
  }

  /** Every context is stored under its own key. */
  predicate Keyed<K, V>(key: V -> K, m: map<K, V>) {
    forall k | k in m :: key(m[k]) == k
  }

  /** Each entry of the maps is listed once, in some order. */
  ghost predicate Lists(t: Tables, ifaces: map<string, bool>, pdps: map<uint32, PdpContext>,
                        ues: map<string, UeContext>) {
    && IfaceTable(t.ifaces) == ifaces && |t.ifaces| == |ifaces|
    && PdpTable(t.pdps) == pdps && |t.pdps| == |pdps|
    && UeTable(t.ues) == ues && |t.ues| == |ues|
  }

  // ----- saving -----

  /** The objects of one array; the separator goes before every object but the first. */
  method PrintObjects(objs: seq<seq<Line>>) returns (text: string)
    ensures text == Joined(objs)
  {
    text := "";
    var first := true;
    for i := 0 to |objs|
      invariant first == (i == 0)
      invariant text == Joined(objs[..i])
    {
      if !first {
        text := text + ",\n";
      }
      first := false;
      JoinedSnoc(objs[..i], objs[i]);
      assert objs[..i + 1] == objs[..i] + [objs[i]];
      text := text + "    " + ObjectText(objs[i]);
    }
    assert objs[..|objs|] == objs;
  }

  lemma JoinedSnoc(objs: seq<seq<Line>>, fs: seq<Line>)
    ensures Joined(objs + [fs]) == Joined(objs) + (if objs == [] then "" else ",\n") + "    " + ObjectText(fs)
  {
    assert ObjectTexts(objs + [fs]) == ObjectTexts(objs) + [ObjectText(fs)];
    JoinedTextsSnoc(ObjectTexts(objs), ObjectText(fs));
  }

  lemma {:induction false} JoinedTextsSnoc(ts: seq<string>, t: string)
    ensures JoinedTexts(ts + [t]) == JoinedTexts(ts) + (if ts == [] then "" else ",\n") + "    " + t
  {
    if |ts| > 1 {
      JoinedTextsSnoc(ts[1..], t);
      assert (ts + [t])[1..] == ts[1..] + [t];
    } else if |ts| == 1 {
      assert (ts + [t])[1..] == [t];
    }
  }

  method SaveRuntimeState(state: RuntimeState, s: Setting) returns (json: string, t: Tables)
    requires Keyed(TeidOf, state.pdpContexts) && Keyed(ImsiOf, state.ueContexts)
    ensures Lists(t, state.interfaceAdminState, state.pdpContexts, state.ueContexts)
    ensures json == Render(s, t)
  {
    var ifaces := ListEntries(state.interfaceAdminState, NameOf, StateOf, (name, up) => (name, up));
    var pdps := ListEntries(state.pdpContexts, TeidOf, Itself, (teid, c) => c);
    var ues := ListEntries(state.ueContexts, ImsiOf, Itself, (imsi, c) => c);
    t := Tables(ifaces, pdps, ues);
    var header := Lines(HeaderLines(HeaderOf(s, |ifaces|)));
    var ifaceText := PrintObjects(IfaceObjects(ifaces));
    var pdpText := PrintObjects(PdpObjects(pdps, s.clock));
    var ueText := PrintObjects(UeObjects(ues, s.clock));
    json := PutTogether(header, ifaceText, pdpText, ueText);
  }

  function Arrays(ifaceText: string, pdpText: string, ueText: string): string {
    Body(ArrayLine(IFACES)) + "\n" + (ifaceText + "\n  ]" + (",\n"
    + (Body(ArrayLine(PDPS)) + "\n" + (pdpText + "\n  ]" + (",\n"
    + (Body(ArrayLine(UES)) + "\n" + (ueText + "\n  ]" + CLOSE)))))))
  }

  function PutTogether(header: string, ifaceText: string, pdpText: string, ueText: string): string {
    header + Arrays(ifaceText, pdpText, ueText)
  }

  // ----- loading -----

  function Prepend<T>(items: seq<T>, r: Result<seq<T>, LoadError>): Result<seq<T>, LoadError> {
    match r case Err(e) => Err(e) case Ok(xs) => Ok(items + xs)
  }

  lemma GatherStep<T>(objs: seq<string>, read: Reader -> Result<T, LoadError>, i: nat, items: seq<T>)
    requires i < |objs|
    ensures Prepend(items, Gather(objs[i..], read))
         == match read(ReaderOf(objs[i]))
            case Err(e) => Err(e)
            case Ok(x) => Prepend(items + [x], Gather(objs[i + 1..], read))
  {
    var first, rest := read(ReaderOf(objs[i])), Gather(objs[i + 1..], read);
    assert objs[i..][1..] == objs[i + 1..];
    if first.Ok? && rest.Ok? {
      assert items + ([first.value] + rest.value) == items + [first.value] + rest.value;
    }
  }

  method ReadObjects<T>(objs: seq<string>, read: Reader -> Result<T, LoadError>) returns (r: Result<seq<T>, LoadError>)
    ensures r == Gather(objs, read)
  {
    var items: seq<T> := [];
    assert objs[0..] == objs;
    assert Gather(objs, read).Ok? ==> [] + Gather(objs, read).value == Gather(objs, read).value;
    for i := 0 to |objs|
      invariant Gather(objs, read) == Prepend(items, Gather(objs[i..], read))
    {
      GatherStep(objs, read, i, items);
      var item := read(ReaderOf(objs[i]));
      if item.Err? {
        r := Err(item.error);
        return;
      }
      items := items + [item.value];
    }
    assert objs[|objs|..] == [] && items + [] == items;
    r := Ok(items);
  }

  method SplitArray(json: string, key: string) returns (r: Option<seq<string>>)
    ensures r == ObjectsUnder(json, key)
  {
    var found, arrayStart, arrayEnd := FindJsonArrayBounds(json, key);
    if !found {
      return None;
    }
    BoundsAreOrdered(json, key);
    var objects := SplitTopLevelJsonObjects(json[arrayStart..arrayEnd]);
    r := Some(objects);
  }

  method ReadHeader(json: string, clock: Clock) returns (fault: Option<LoadError>)
    ensures fault == CheckHeader(json, clock)
  {
    var version := ExtractJsonUintField(json, SCHEMA);
    if version.None? {
      return Some(NoSchemaVersion);
    }
    if version.value != SCHEMA_VERSION {
      return Some(WrongSchemaVersion);
    }
    var stamp := ExtractJsonStringField(json, SAVED_AT);
    if stamp.None? || ParseTimestamp(clock, stamp.value).None? {
      return Some(BadSavedAt);
    }
    fault := None;
  }

  method ReadTables(json: string, valid: set<string>, clock: Clock) returns (r: Result<Tables, LoadError>)
    ensures r == LoadTables(json, valid, clock)
  {
    var fault := ReadHeader(json, clock);
    if fault.Some? {
      return Err(fault.value);
    }
    var ifaces: Result<seq<(string, bool)>, LoadError> := Ok([]);
    var objects := SplitArray(json, IFACES);
    if objects.Some? {
      ifaces := ReadObjects(objects.value, r => ReadIface(r, valid, IFACE_NAMES));
    }
    if ifaces.Err? {
      return Err(ifaces.error);
    }
    objects := SplitArray(json, PDPS);
    if objects.None? {
      return Err(NoPdpArray);
    }
    var pdps := ReadObjects(objects.value, ReadPdpWith(clock));
    if pdps.Err? {
      return Err(pdps.error);
    }
    objects := SplitArray(json, UES);
    if objects.None? {
      return Err(NoUeArray);
    }
    var ues := ReadObjects(objects.value, ReadUeWith(clock));
    if ues.Err? {
      return Err(ues.error);
    }
    r := Ok(Tables(ifaces.value, pdps.value, ues.value));
  }

  method StorePdps(state: RuntimeState, pdps: seq<PdpContext>)
    requires state.pdpContexts == map[]
    modifies state`pdpContexts
    ensures state.pdpContexts == PdpTable(pdps)
  {
    for i := 0 to |pdps|
      invariant state.pdpContexts == PdpTable(pdps[..i])
    {
      assert pdps[..i + 1][..i] == pdps[..i];
      state.UpsertPdpContext(pdps[i]);
    }
    assert pdps[..|pdps|] == pdps;
  }

  method StoreUes(state: RuntimeState, ues: seq<UeContext>)
    requires state.ueContexts == map[]
    modifies state`ueContexts
    ensures state.ueContexts == UeTable(ues)
  {
    for i := 0 to |ues|
      invariant state.ueContexts == UeTable(ues[..i])
    {
      assert ues[..i + 1][..i] == ues[..i];
      state.UpsertUeContext(ues[i]);
    }
    assert ues[..|ues|] == ues;
  }

  /** Interfaces the snapshot does not name keep their state. */
  method StoreIfaces(state: RuntimeState, ifaces: seq<(string, bool)>)
    modifies state`interfaceAdminState
    ensures state.interfaceAdminState == old(state.interfaceAdminState) + IfaceTable(ifaces)
  {
    for i := 0 to |ifaces|
      invariant state.interfaceAdminState == old(state.interfaceAdminState) + IfaceTable(ifaces[..i])
    {
      assert ifaces[..i + 1][..i] == ifaces[..i];
      state.interfaceAdminState := state.interfaceAdminState[ifaces[i].0 := ifaces[i].1];
    }
    assert ifaces[..|ifaces|] == ifaces;
  }

  method LoadRuntimeState(state: RuntimeState, file: Option<string>, valid: set<string>, clock: Clock)
    returns (r: Result<(), LoadError>)
    modifies state
    ensures file.None? ==> r.Ok? && state.pdpContexts == map[] && state.ueContexts == map[]
                           && state.interfaceAdminState == old(state.interfaceAdminState)
    ensures file.Some? ==>
              match LoadTables(file.value, valid, clock)
              case Err(e) =>
                && r == Err(e) && state.pdpContexts == map[] && state.ueContexts == map[]
                && state.interfaceAdminState == old(state.interfaceAdminState)
              case Ok(t) =>
                && r.Ok? && state.pdpContexts == PdpTable(t.pdps) && state.ueContexts == UeTable(t.ues)
                && state.interfaceAdminState == old(state.interfaceAdminState) + IfaceTable(t.ifaces)
  {
    state.ClearRuntimeState();
    if file.None? {
      return Ok(());
    }
    var tables := ReadTables(file.value, valid, clock);
    if tables.Err? {
      return Err(tables.error);
    }
    var t := tables.value;
    StorePdps(state, t.pdps);
    StoreUes(state, t.ues);
    StoreIfaces(state, t.ifaces);
    r := Ok(());
  }

  // ----- a restart -----

  /** Saved and loaded, the maps come back, or nothing is stored. */
  lemma RestartRestores(s: Setting, t: Tables, ifaces: map<string, bool>, pdps: map<uint32, PdpContext>,
                        ues: map<string, UeContext>, valid: set<string>)
    requires Lists(t, ifaces, pdps, ues)
    requires Faithful(s.clock) && CanLocate(s, t) && Decipherable(t, valid)
    ensures var r := LoadTables(Render(s, t), valid, s.clock);
            if (forall k | k in pdps :: PdpReloads(pdps[k])) && (forall k | k in ues :: UeReloads(ues[k])) then
              && r.Ok?
              && PdpTable(r.value.pdps) == pdps && UeTable(r.value.ues) == ues
              && IfaceTable(r.value.ifaces) == ifaces
            else r.Err?
  {
    AllReloadListed(t, pdps, ues);
    SnapshotRoundTrip(s, t, valid);
  }

  lemma AllReloadListed(t: Tables, pdps: map<uint32, PdpContext>, ues: map<string, UeContext>)
    requires PdpTable(t.pdps) == pdps && |t.pdps| == |pdps| && UeTable(t.ues) == ues && |t.ues| == |ues|
    ensures AllReload(t) <==>
            (forall k | k in pdps :: PdpReloads(pdps[k])) && (forall k | k in ues :: UeReloads(ues[k]))
  {
    PdpsListed(t.pdps, pdps);
    UesListed(t.ues, ues);
  }

  lemma PdpsListed(list: seq<PdpContext>, m: map<uint32, PdpContext>)
    requires PdpTable(list) == m && |list| == |m|
    ensures forall c | c in list :: c.teid in m && m[c.teid] == c
    ensures forall k | k in m :: m[k] in list
  {
    ListedOnce(TeidOf, Itself, list);
    forall k | k in m
      ensures m[k] in list
    {
      TableKeys(TeidOf, Itself, list, k);
    }
  }

  lemma UesListed(list: seq<UeContext>, m: map<string, UeContext>)
    requires UeTable(list) == m && |list| == |m|
    ensures forall c | c in list :: c.imsi in m && m[c.imsi] == c
    ensures forall k | k in m :: m[k] in list
  {
    ListedOnce(ImsiOf, Itself, list);
    forall k | k in m
      ensures m[k] in list
    {
      TableKeys(ImsiOf, Itself, list, k);
    }
  }

  /**
    A program stops and another starts from its snapshot: where the arrays can be located and the texts decoded,
    the new state holds all the old contexts and interface states, or, if one context does not reload, none.
   */
  method Restart(state: RuntimeState, restarted: RuntimeState, s: Setting, valid: set<string>)
    returns (t: Tables, r: Result<(), LoadError>)
    requires state != restarted && Faithful(s.clock)
    requires Keyed(TeidOf, state.pdpContexts) && Keyed(ImsiOf, state.ueContexts)
    modifies restarted
    ensures Lists(t, state.interfaceAdminState, state.pdpContexts, state.ueContexts)
    ensures CanLocate(s, t) && Decipherable(t, valid) ==>
              if && (forall k | k in state.pdpContexts :: PdpReloads(state.pdpContexts[k]))
                 && (forall k | k in state.ueContexts :: UeReloads(state.ueContexts[k]))
              then
                && r.Ok?
                && restarted.pdpContexts == state.pdpContexts && restarted.ueContexts == state.ueContexts
                && restarted.interfaceAdminState == old(restarted.interfaceAdminState) + state.interfaceAdminState
              else
                && r.Err?
                && restarted.pdpContexts == map[] && restarted.ueContexts == map[]
                && restarted.interfaceAdminState == old(restarted.interfaceAdminState)
  {
    var json;
    json, t := SaveRuntimeState(state, s);
    if CanLocate(s, t) && Decipherable(t, valid) {
      RestartRestores(s, t, state.interfaceAdminState, state.pdpContexts, state.ueContexts, valid);
    }
    r := LoadRuntimeState(restarted, Some(json), valid, s.clock);
  }
}
