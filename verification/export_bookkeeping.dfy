/**
 * Bookkeeping done while writing an AUTOSAR 4 document: the SW-BASE-TYPE
 * elements declared once per base-type name, and the per-ECU lists of
 * transmitted and received frames that become the I-PDU groups.
 */
module ExportBookkeeping {
  import opened BaseType
  import opened SeqLemmas

  /** What the export reads from a signal to choose its base type. */
  datatype SignalDef = SignalDef(isFloat: bool, isSigned: bool, size: int)

  /** What the export reads from a frame. */
  datatype FrameDef = FrameDef(name: string, isComplexMultiplexed: bool, signals: seq<SignalDef>,
                               transmitters: seq<string>, receivers: seq<string>)

  /** One matrix of the export: its ECU names and its frames, in order. */
  datatype Matrix = Matrix(ecus: seq<string>, frames: seq<FrameDef>)

  /** A SW-BASE-TYPE element: SHORT-NAME, BASE-TYPE-SIZE, and whether BASE-TYPE-ENCODING IEEE754 is written. */
  datatype SwBaseType = SwBaseType(shortName: string, size: int, ieee754: bool)

  // ---------------------------------------------------------------------------
  // SW-BASE-TYPE declarations
  // ---------------------------------------------------------------------------

  /** The signals of the frames that are exported (complex-multiplexed frames are skipped), in order. */
  function FrameSignals(frames: seq<FrameDef>): seq<SignalDef>
  {
    if frames == [] then []
    else
      var f := frames[|frames| - 1];
      FrameSignals(frames[..|frames| - 1]) + (if f.isComplexMultiplexed then [] else f.signals)
  }

  /** The exported signals of all matrices, in order. */
  function AllSignals(dbs: seq<Matrix>): seq<SignalDef>
  {
    if dbs == [] then [] else AllSignals(dbs[..|dbs| - 1]) + FrameSignals(dbs[|dbs| - 1].frames)
  }

  /** The SW-BASE-TYPE a signal asks for. */
  function EntryOf(s: SignalDef): (t: SwBaseType)
    ensures t.ieee754 <==> IsFloatTypeName(t.shortName)
  {
    var b := BaseTypeOfSignal(s.isFloat, s.isSigned, s.size);
    SwBaseType(b.name, b.size, s.isFloat)
  }

  function Names(ts: seq<SwBaseType>): seq<string>
  {
    seq(|ts|, i requires 0 <= i < |ts| => ts[i].shortName)
  }

  /** The declarations made for `sigs`: a signal adds its base type unless one of that name was already declared. */
  function Created(sigs: seq<SignalDef>): seq<SwBaseType>
  {
    if sigs == [] then []
    else
      var prev := Created(sigs[..|sigs| - 1]);
      var t := EntryOf(sigs[|sigs| - 1]);
      if t.shortName in Names(prev) then prev else prev + [t]
  }

  lemma CreatedStep(sigs: seq<SignalDef>, sig: SignalDef)
    ensures Created(sigs + [sig]) ==
      if EntryOf(sig).shortName in Names(Created(sigs)) then Created(sigs) else Created(sigs) + [EntryOf(sig)]
  {
    assert (sigs + [sig])[..|sigs|] == sigs;
  }

  lemma NamesAppend(ts: seq<SwBaseType>, t: SwBaseType)
    ensures Names(ts + [t]) == Names(ts) + [t.shortName]
  {
  }

  lemma FrameSignalsStep(frames: seq<FrameDef>, f: nat)
    requires f < |frames|
    ensures FrameSignals(frames[..f + 1]) ==
      FrameSignals(frames[..f]) + (if frames[f].isComplexMultiplexed then [] else frames[f].signals)
  {
    assert frames[..f + 1][..f] == frames[..f];
  }

  lemma AllSignalsStep(dbs: seq<Matrix>, d: nat)
    requires d < |dbs|
    ensures AllSignals(dbs[..d + 1]) == AllSignals(dbs[..d]) + FrameSignals(dbs[d].frames)
  {
    assert dbs[..d + 1][..d] == dbs[..d];
  }

  /** What one more signal does to the declarations, in the terms the export's loop uses. */
  lemma DeclareStep(sigs: seq<SignalDef>, signals: seq<SignalDef>, s: nat, types: seq<SwBaseType>)
    requires s < |signals| && types == Created(sigs + signals[..s])
    ensures var sig := signals[s];
      var b := BaseTypeOfSignal(sig.isFloat, sig.isSigned, sig.size);
      var t := SwBaseType(b.name, b.size, sig.isFloat);
      && sigs + signals[..s + 1] == (sigs + signals[..s]) + [sig]
      && Created(sigs + signals[..s + 1]) == (if b.name in Names(types) then types else types + [t])
      && Names(types + [t]) == Names(types) + [b.name]
  {
    var sig := signals[s];
    assert signals[..s + 1] == signals[..s] + [sig];
    AppendAssoc(sigs, signals[..s], [sig]);
    CreatedStep(sigs + signals[..s], sig);
    NamesAppend(types, EntryOf(sig));
  }

  /** Declares, in order, the base types of `signals` not declared yet (the innermost loop of the export). */
  method DeclareSignals(signals: seq<SignalDef>, created: seq<string>, types: seq<SwBaseType>, ghost sigs: seq<SignalDef>)
    returns (created': seq<string>, types': seq<SwBaseType>)
    requires types == Created(sigs) && created == Names(types)
    ensures types' == Created(sigs + signals) && created' == Names(types')
  {
    created', types' := created, types;
    ghost var done := sigs;
    var s := 0;
    assert sigs + signals[..0] == sigs;
    while s < |signals|
      invariant 0 <= s <= |signals|
      invariant done == sigs + signals[..s]
      invariant types' == Created(done) && created' == Names(types')
    {
      var signal := signals[s];
      var b := BaseTypeOfSignal(signal.isFloat, signal.isSigned, signal.size);
      DeclareStep(sigs, signals, s, types');
      if b.name !in created' {
        created' := created' + [b.name];
        types' := types' + [SwBaseType(b.name, b.size, signal.isFloat)];
      }
      done := done + [signal];
      s := s + 1;
    }
    assert signals[..s] == signals;
  }

  /** Declares the base types of the exported frames of one matrix. */
  method DeclareFrames(frames: seq<FrameDef>, created: seq<string>, types: seq<SwBaseType>, ghost sigs: seq<SignalDef>)
    returns (created': seq<string>, types': seq<SwBaseType>)
    requires types == Created(sigs) && created == Names(types)
    ensures types' == Created(sigs + FrameSignals(frames)) && created' == Names(types')
  {
    created', types' := created, types;
    ghost var done := sigs;
    var f := 0;
    while f < |frames|
      invariant 0 <= f <= |frames|
      invariant done == sigs + FrameSignals(frames[..f])
      invariant types' == Created(done) && created' == Names(types')
    {
      var frame := frames[f];
      FrameSignalsStep(frames, f);
      if !frame.isComplexMultiplexed {
        created', types' := DeclareSignals(frame.signals, created', types', done);
        AppendAssoc(sigs, FrameSignals(frames[..f]), frame.signals);
        done := done + frame.signals;
      } else {
        assert FrameSignals(frames[..f + 1]) == FrameSignals(frames[..f]) + [];
      }
      f := f + 1;
    }
    assert frames[..f] == frames;
  }

  /**
   * The SW-BASE-TYPE part of the AUTOSAR 4 export: walks matrices, exported
   * frames and their signals, and declares each base-type name on first use.
   */
  method CreatedBaseTypes(dbs: seq<Matrix>) returns (types: seq<SwBaseType>)
    ensures types == Created(AllSignals(dbs))
  {
    var created: seq<string> := [];
    types := [];
    var d := 0;
    while d < |dbs|
      invariant 0 <= d <= |dbs|
      invariant types == Created(AllSignals(dbs[..d])) && created == Names(types)
    {
      created, types := DeclareFrames(dbs[d].frames, created, types, AllSignals(dbs[..d]));
      AllSignalsStep(dbs, d);
      d := d + 1;
    }
    assert dbs[..d] == dbs;
  }

  /** Two signals asking for the same base-type name ask for the same declaration. */
  lemma EntryDeterminedByName(s1: SignalDef, s2: SignalDef)
    requires EntryOf(s1).shortName == EntryOf(s2).shortName
    ensures EntryOf(s1) == EntryOf(s2)
  {
    SizeDeterminedByName(s1.isFloat, s1.isSigned, s1.size, s2.isFloat, s2.isSigned, s2.size);
  }

  /** Each base-type name is declared at most once. */
  lemma {:induction false} CreatedDistinct(sigs: seq<SignalDef>)
    ensures forall i, j :: 0 <= i < j < |Created(sigs)| ==> Created(sigs)[i].shortName != Created(sigs)[j].shortName
    decreases |sigs|
  {
    if sigs != [] {
      var prev := Created(sigs[..|sigs| - 1]);
      var t := EntryOf(sigs[|sigs| - 1]);
      CreatedDistinct(sigs[..|sigs| - 1]);
      if t.shortName !in Names(prev) {
        forall i | 0 <= i < |prev|
          ensures prev[i].shortName != t.shortName
        {
          assert Names(prev)[i] == prev[i].shortName;
        }
      }
    }
  }

  /** Every declaration is the base type some signal asks for. */
  lemma {:induction false} CreatedSound(sigs: seq<SignalDef>)
    ensures forall t :: t in Created(sigs) ==> exists i :: 0 <= i < |sigs| && EntryOf(sigs[i]) == t
    decreases |sigs|
  {
    if sigs != [] {
      var rest := sigs[..|sigs| - 1];
      CreatedSound(rest);
      assert forall i :: 0 <= i < |rest| ==> sigs[i] == rest[i];
    }
  }

  /** Every signal's base type is among the declarations. */
  lemma {:induction false} CreatedCovers(sigs: seq<SignalDef>)
    ensures forall i :: 0 <= i < |sigs| ==> EntryOf(sigs[i]) in Created(sigs)
    decreases |sigs|
  {
    if sigs != [] {
      var rest := sigs[..|sigs| - 1];
      var last := sigs[|sigs| - 1];
      var prev := Created(rest);
      var t := EntryOf(last);
      CreatedCovers(rest);
      assert forall i :: 0 <= i < |rest| ==> sigs[i] == rest[i];
      assert forall x :: x in prev ==> x in Created(sigs);
      if t.shortName in Names(prev) {
        CreatedSound(rest);
        var k :| 0 <= k < |prev| && Names(prev)[k] == t.shortName;
        assert prev[k] in prev;
        var i :| 0 <= i < |rest| && EntryOf(rest[i]) == prev[k];
        EntryDeterminedByName(rest[i], last);
      }
    }
  }

  /** Declarations made for more signals extend those made for fewer: the export only ever appends. */
  lemma {:induction false} CreatedGrows(a: seq<SignalDef>, b: seq<SignalDef>)
    ensures Created(a) <= Created(a + b)
    decreases |b|
  {
    if b != [] {
      var b' := b[..|b| - 1];
      assert (a + b)[..|a + b| - 1] == a + b';
      CreatedGrows(a, b');
    } else {
      assert a + b == a;
    }
  }

  // ---------------------------------------------------------------------------
  // I-PDU groups
  // ---------------------------------------------------------------------------

  /** One visit of the export's ECU loop: an ECU name paired with an exported frame of the same matrix. */
  datatype Visit = Visit(ecu: string, frame: FrameDef)

  /** The visits of `ecu` to the exported frames among `frames`, in order. */
  function FrameVisits(ecu: string, frames: seq<FrameDef>): seq<Visit>
  {
    if frames == [] then []
    else
      var f := frames[|frames| - 1];
      FrameVisits(ecu, frames[..|frames| - 1]) + (if f.isComplexMultiplexed then [] else [Visit(ecu, f)])
  }

  /** The visits of every ECU in `ecus` to the exported frames among `frames`, ECU by ECU. */
  function EcuVisits(ecus: seq<string>, frames: seq<FrameDef>): seq<Visit>
  {
    if ecus == [] then [] else EcuVisits(ecus[..|ecus| - 1], frames) + FrameVisits(ecus[|ecus| - 1], frames)
  }

  /** All visits of the export, matrix by matrix. */
  function Visits(dbs: seq<Matrix>): seq<Visit>
  {
    if dbs == [] then [] else Visits(dbs[..|dbs| - 1]) + EcuVisits(dbs[|dbs| - 1].ecus, dbs[|dbs| - 1].frames)
  }

  /** Whether the visited ECU transmits (`transmit`) or receives (otherwise) the visited frame. */
  predicate Takes(v: Visit, transmit: bool)
  {
    if transmit then v.ecu in v.frame.transmitters else v.ecu in v.frame.receivers
  }

  /** The names of the frames `e` transmits (or receives) over `vs`, in visit order. */
  function Members(vs: seq<Visit>, e: string, transmit: bool): seq<string>
  {
    if vs == [] then []
    else
      var v := vs[|vs| - 1];
      Members(vs[..|vs| - 1], e, transmit) + (if v.ecu == e && Takes(v, transmit) then [v.frame.name] else [])
  }

  /** Appends `x` to the list under `k`, starting a list when there is none. */
  function Push(m: map<string, seq<string>>, k: string, x: string): (r: map<string, seq<string>>)
    ensures r.Keys == m.Keys + {k}
  {
    m[k := (if k in m then m[k] else []) + [x]]
  }

  /** The group map as intended: under `e + suffix`, every frame `e` transmits (or receives), in order. */
  function Groups(vs: seq<Visit>, suffix: string, transmit: bool): map<string, seq<string>>
  {
    if vs == [] then map[]
    else
      var m := Groups(vs[..|vs| - 1], suffix, transmit);
      var v := vs[|vs| - 1];
      if Takes(v, transmit) then Push(m, v.ecu + suffix, v.frame.name) else m
  }

  /** Whether every key of `m` ends with `suffix`. */
  predicate KeysEndWith(m: map<string, seq<string>>, suffix: string)
  {
    forall k :: k in m ==> |suffix| <= |k| && k[|k| - |suffix|..] == suffix
  }

  /**
   * The receive-group map as the export builds it: the test for an existing list
   * looks up `e + "_Tx"`, the list it then resets is `e + "_Rx"`.
   */
  function RxGroupsAsWritten(vs: seq<Visit>): map<string, seq<string>>
  {
    if vs == [] then map[]
    else
      var m := RxGroupsAsWritten(vs[..|vs| - 1]);
      var v := vs[|vs| - 1];
      var k := v.ecu + "_Rx";
      if !Takes(v, false) then m
      else
        var reset := if v.ecu + "_Tx" !in m then m[k := []] else m;
        reset[k := (if k in reset then reset[k] else []) + [v.frame.name]]
  }

  /** Starting an empty list when the key is missing and then appending is Push. */
  lemma StartThenAppend(m: map<string, seq<string>>, k: string, x: string)
    ensures var m' := if k !in m then m[k := []] else m; k in m' && m'[k := m'[k] + [x]] == Push(m, k, x)
  {
  }

  lemma GroupsStep(vs: seq<Visit>, v: Visit, suffix: string, transmit: bool)
    ensures Groups(vs + [v], suffix, transmit) ==
      if Takes(v, transmit) then Push(Groups(vs, suffix, transmit), v.ecu + suffix, v.frame.name) else Groups(vs, suffix, transmit)
  {
    assert (vs + [v])[..|vs|] == vs;
  }

  lemma RxStep(vs: seq<Visit>, v: Visit)
    ensures var m := RxGroupsAsWritten(vs);
      var k := v.ecu + "_Rx";
      var reset := if v.ecu + "_Tx" !in m then m[k := []] else m;
      RxGroupsAsWritten(vs + [v]) == if !Takes(v, false) then m else reset[k := (if k in reset then reset[k] else []) + [v.frame.name]]
  {
    assert (vs + [v])[..|vs|] == vs;
  }

  lemma FrameVisitsStep(ecu: string, frames: seq<FrameDef>, f: nat)
    requires f < |frames|
    ensures FrameVisits(ecu, frames[..f + 1]) ==
      FrameVisits(ecu, frames[..f]) + (if frames[f].isComplexMultiplexed then [] else [Visit(ecu, frames[f])])
  {
    assert frames[..f + 1][..f] == frames[..f];
  }

  lemma EcuVisitsStep(ecus: seq<string>, frames: seq<FrameDef>, j: nat)
    requires j < |ecus|
    ensures EcuVisits(ecus[..j + 1], frames) == EcuVisits(ecus[..j], frames) + FrameVisits(ecus[j], frames)
  {
    assert ecus[..j + 1][..j] == ecus[..j];
  }

  lemma VisitsStep(dbs: seq<Matrix>, d: nat)
    requires d < |dbs|
    ensures Visits(dbs[..d + 1]) == Visits(dbs[..d]) + EcuVisits(dbs[d].ecus, dbs[d].frames)
  {
    assert dbs[..d + 1][..d] == dbs[..d];
  }

  /** One ECU's pass over the frames of its matrix (the innermost loop of the ECU part of the export). */
  method VisitFrames(ecu: string, frames: seq<FrameDef>, tx: map<string, seq<string>>, rx: map<string, seq<string>>,
                     ghost vs: seq<Visit>)
    returns (tx': map<string, seq<string>>, rx': map<string, seq<string>>)
    requires tx == Groups(vs, "_Tx", true) && rx == RxGroupsAsWritten(vs)
    ensures tx' == Groups(vs + FrameVisits(ecu, frames), "_Tx", true)
    ensures rx' == RxGroupsAsWritten(vs + FrameVisits(ecu, frames))
  {
    tx', rx' := tx, rx;
    ghost var done := vs;
    var f := 0;
    while f < |frames|
      invariant 0 <= f <= |frames|
      invariant done == vs + FrameVisits(ecu, frames[..f])
      invariant tx' == Groups(done, "_Tx", true) && rx' == RxGroupsAsWritten(done)
    {
      var frame := frames[f];
      FrameVisitsStep(ecu, frames, f);
      if !frame.isComplexMultiplexed {
        var v := Visit(ecu, frame);
        GroupsStep(done, v, "_Tx", true);
        RxStep(done, v);
        if ecu in frame.transmitters {
          ghost var before := tx';
          if ecu + "_Tx" !in tx' {
            tx' := tx'[ecu + "_Tx" := []];
          }
          StartThenAppend(before, ecu + "_Tx", frame.name);
          tx' := tx'[ecu + "_Tx" := tx'[ecu + "_Tx"] + [frame.name]];
        }
        if ecu in frame.receivers {
          if ecu + "_Tx" !in rx' {
            rx' := rx'[ecu + "_Rx" := []];
          }
          rx' := rx'[ecu + "_Rx" := (if ecu + "_Rx" in rx' then rx'[ecu + "_Rx"] else []) + [frame.name]];
        }
        done := done + [v];
      }
      f := f + 1;
    }
    assert frames[..f] == frames;
  }

  /** Every ECU of one matrix in turn makes its pass over the matrix's frames. */
  method VisitEcus(db: Matrix, tx: map<string, seq<string>>, rx: map<string, seq<string>>, ghost vs: seq<Visit>)
    returns (tx': map<string, seq<string>>, rx': map<string, seq<string>>)
    requires tx == Groups(vs, "_Tx", true) && rx == RxGroupsAsWritten(vs)
    ensures tx' == Groups(vs + EcuVisits(db.ecus, db.frames), "_Tx", true)
    ensures rx' == RxGroupsAsWritten(vs + EcuVisits(db.ecus, db.frames))
  {
    tx', rx' := tx, rx;
    ghost var done := vs;
    var j := 0;
    while j < |db.ecus|
      invariant 0 <= j <= |db.ecus|
      invariant done == vs + EcuVisits(db.ecus[..j], db.frames)
      invariant tx' == Groups(done, "_Tx", true) && rx' == RxGroupsAsWritten(done)
    {
      tx', rx' := VisitFrames(db.ecus[j], db.frames, tx', rx', done);
      EcuVisitsStep(db.ecus, db.frames, j);
      AppendAssoc(vs, EcuVisits(db.ecus[..j], db.frames), FrameVisits(db.ecus[j], db.frames));
      done := done + FrameVisits(db.ecus[j], db.frames);
      j := j + 1;
    }
    assert db.ecus[..j] == db.ecus;
  }

  /**
   * The ECU part of the export: for every matrix, every ECU and every exported
   * frame, the frame's name is appended to the ECU's transmit group when the ECU
   * transmits it, and to its receive group (with the reset described at
   * RxGroupsAsWritten) when the ECU receives it.
   */
  method IpduGroups(dbs: seq<Matrix>) returns (tx: map<string, seq<string>>, rx: map<string, seq<string>>)
    ensures tx == Groups(Visits(dbs), "_Tx", true)
    ensures rx == RxGroupsAsWritten(Visits(dbs))
  {
    tx := map[];
    rx := map[];
    var d := 0;
    while d < |dbs|
      invariant 0 <= d <= |dbs|
      invariant tx == Groups(Visits(dbs[..d]), "_Tx", true) && rx == RxGroupsAsWritten(Visits(dbs[..d]))
    {
      tx, rx := VisitEcus(dbs[d], tx, rx, Visits(dbs[..d]));
      VisitsStep(dbs, d);
      d := d + 1;
    }
    assert dbs[..d] == dbs;
  }

  /** Two keys made with the same suffix are equal only for equal ECU names. */
  lemma SuffixCancel(a: string, b: string, suffix: string)
    requires a + suffix == b + suffix
    ensures a == b
  {
    assert |a| == |b|;
    assert a == (a + suffix)[..|a|] && b == (b + suffix)[..|b|];
  }

  /**
   * The intended groups: `e + suffix` is a key exactly when `e` transmits (or
   * receives) some exported frame, and its list is every such frame, in order.
   */
  lemma {:induction false} GroupsContent(vs: seq<Visit>, suffix: string, transmit: bool, e: string)
    ensures e + suffix in Groups(vs, suffix, transmit) <==> Members(vs, e, transmit) != []
    ensures e + suffix in Groups(vs, suffix, transmit) ==> Groups(vs, suffix, transmit)[e + suffix] == Members(vs, e, transmit)
    decreases |vs|
  {
    if vs != [] {
      var v := vs[|vs| - 1];
      GroupsContent(vs[..|vs| - 1], suffix, transmit, e);
      if Takes(v, transmit) && v.ecu != e && v.ecu + suffix == e + suffix {
        SuffixCancel(v.ecu, e, suffix);
      }
    }
  }

  /** Every key of the intended groups belongs to an ECU that transmits (or receives) a visited frame. */
  lemma {:induction false} GroupsKeys(vs: seq<Visit>, suffix: string, transmit: bool)
    ensures forall k :: k in Groups(vs, suffix, transmit) ==>
      exists i :: 0 <= i < |vs| && k == vs[i].ecu + suffix && Takes(vs[i], transmit)
    decreases |vs|
  {
    if vs != [] {
      var rest := vs[..|vs| - 1];
      GroupsKeys(rest, suffix, transmit);
      assert forall i :: 0 <= i < |rest| ==> rest[i] == vs[i];
    }
  }

  /** Every key of the receive groups as built ends with "_Rx". */
  lemma {:induction false} RxKeysEndWithRx(vs: seq<Visit>)
    ensures KeysEndWith(RxGroupsAsWritten(vs), "_Rx")
    decreases |vs|
  {
    if vs != [] {
      var v := vs[|vs| - 1];
      RxKeysEndWithRx(vs[..|vs| - 1]);
      var k := v.ecu + "_Rx";
      assert k[|k| - 3..] == "_Rx";
    }
  }

  /** The existence test on "_Tx" never finds a key, so every received frame resets its ECU's list. */
  lemma RxTestAlwaysMisses(vs: seq<Visit>, e: string)
    ensures e + "_Tx" !in RxGroupsAsWritten(vs)
  {
    RxKeysEndWithRx(vs);
    var k := e + "_Tx";
    assert k[|k| - 3..] == "_Tx";
  }

  /**
   * The receive groups as built: `e + "_Rx"` is a key exactly when `e` receives
   * some exported frame, but its list holds only the last such frame.
   */
  lemma {:induction false} RxGroupsKeepOnlyLast(vs: seq<Visit>, e: string)
    ensures e + "_Rx" in RxGroupsAsWritten(vs) <==> Members(vs, e, false) != []
    ensures e + "_Rx" in RxGroupsAsWritten(vs) ==>
      RxGroupsAsWritten(vs)[e + "_Rx"] == [Members(vs, e, false)[|Members(vs, e, false)| - 1]]
    decreases |vs|
  {
    if vs != [] {
      var v := vs[|vs| - 1];
      RxGroupsKeepOnlyLast(vs[..|vs| - 1], e);
      RxTestAlwaysMisses(vs[..|vs| - 1], v.ecu);
      if Takes(v, false) && v.ecu != e && v.ecu + "_Rx" == e + "_Rx" {
        SuffixCancel(v.ecu, e, "_Rx");
      }
    }
  }

  /** The visits of a matrix with one ECU "E" and two exported frames "F1", "F2" that E receives. */
  lemma TwoFrameVisits()
    ensures var f1 := FrameDef("F1", false, [], [], ["E"]);
      var f2 := FrameDef("F2", false, [], [], ["E"]);
      Visits([Matrix(["E"], [f1, f2])]) == [Visit("E", f1), Visit("E", f2)]
  {
    var f1 := FrameDef("F1", false, [], [], ["E"]);
    var f2 := FrameDef("F2", false, [], [], ["E"]);
    var dbs := [Matrix(["E"], [f1, f2])];
    var vs := [Visit("E", f1), Visit("E", f2)];
    assert [f1, f2][..1] == [f1] && [f1][..0] == [];
    assert FrameVisits("E", [f1]) == [Visit("E", f1)];
    assert FrameVisits("E", [f1, f2]) == vs;
    assert ["E"][..0] == [];
    assert EcuVisits(["E"], [f1, f2]) == vs;
    assert dbs[..0] == [];
  }

  /**
   * A matrix in which ECU "E" receives two frames: the receive group as built
   * keeps only the second, where the intended group lists both.
   */
  lemma RxGroupsDropEarlierFrames()
    ensures var f1 := FrameDef("F1", false, [], [], ["E"]);
      var f2 := FrameDef("F2", false, [], [], ["E"]);
      var dbs := [Matrix(["E"], [f1, f2])];
      && "E_Rx" in RxGroupsAsWritten(Visits(dbs)) && RxGroupsAsWritten(Visits(dbs))["E_Rx"] == ["F2"]
      && "E_Rx" in Groups(Visits(dbs), "_Rx", false) && Groups(Visits(dbs), "_Rx", false)["E_Rx"] == ["F1", "F2"]
  {
    var f1 := FrameDef("F1", false, [], [], ["E"]);
    var f2 := FrameDef("F2", false, [], [], ["E"]);
    var vs := [Visit("E", f1), Visit("E", f2)];
    TwoFrameVisits();
    assert vs[..1] == [Visit("E", f1)] && vs[..1][..0] == [];
    assert "E" in f1.receivers && "E" in f2.receivers;
    assert Members(vs[..1], "E", false) == ["F1"];
    assert Members(vs, "E", false) == ["F1", "F2"];
    assert "E" + "_Rx" == "E_Rx";
    RxGroupsKeepOnlyLast(vs, "E");
    GroupsContent(vs, "_Rx", false, "E");
  }
}
