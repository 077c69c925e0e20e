/** The instance resolvers of internal/commands/interceptor/instance.go: a
    user names a service instance by its id or by its name, and the
    resolvers derive the missing one and write both back into the flag
    context. Each resolver is a method over a `Context`, specified by a
    function of the flag values before the call that gives the error and the
    flag values after it. */
module Instance {
  import opened Wrappers
  import opened GoStrings
  import opened Errors
  import opened FlagContext
  import opened InstanceCodec

  const INSTANCE_ID_FLAG: string := "instance-id"
  const INSTANCE_NAME_FLAG: string := "instance-name"
  const DEST_INSTANCE_ID_FLAG: string := "dest-instance-id"
  const DEST_INSTANCE_NAME_FLAG: string := "dest-instance-name"
  const INSTANCE_ID_LIST_FLAG: string := "instance-id-list"
  const INSTANCE_NAME_LIST_FLAG: string := "instance-name-list"
  /** The flags holding the service id and the destination service id; they
      belong to the service resolver, outside this file. */
  const SERVICE_ID_FLAG: string := "service-id"
  const DEST_SERVICE_ID_FLAG: string := "dest-service-id"

  /** The separator of the list flags, `,`. */
  const COMMA: Byte := 44

  /** The service resolver `ParseService(required)`, whose code is not part
      of this model: given `required` and the flag values, whether it fails
      and the flag values it leaves behind. */
  type ServiceStep = (bool, map<string, Str>) -> Step

  /** No value for either of two alternative flags. */
  predicate NeitherGiven(values: map<string, Str>, idFlag: string, nameFlag: string)
  {
    Lookup(values, idFlag) == [] && Lookup(values, nameFlag) == []
  }

  /** The error for two alternative flags that are both missing: one when
      they are required, none otherwise. */
  function Absent(required: bool, idFlag: string, nameFlag: string): Option<Error>
  {
    if required then Some(MissingFlag(idFlag, nameFlag)) else None
  }

  // ---------------------------------------------------------------------
  // parseInstance: one id flag and one name flag

  /** What `parseInstance` does to the flag values. */
  function PairOutcome(required: bool, idFlag: string, nameFlag: string, serviceFlag: string,
                       values: map<string, Str>, writable: set<string>): (r: Step)
    // both flags empty: an error if required, otherwise nothing happens
    ensures NeitherGiven(values, idFlag, nameFlag) ==> r == Step(Absent(required, idFlag, nameFlag), values)
    // a failing encode writes no flag and its error is returned unchanged
    ensures var e := Encode(Lookup(values, serviceFlag), nameFlag, Lookup(values, idFlag), Lookup(values, nameFlag));
            !NeitherGiven(values, idFlag, nameFlag) && e.err.Some? ==> r == Step(e.err, values)
    // on success the two flags hold what encode derived
    ensures var e := Encode(Lookup(values, serviceFlag), nameFlag, Lookup(values, idFlag), Lookup(values, nameFlag));
            !NeitherGiven(values, idFlag, nameFlag) && r.err.None? ==>
              e.err.None? && {idFlag, nameFlag} <= writable &&
              Lookup(r.values, nameFlag) == e.name &&
              (idFlag != nameFlag ==> Lookup(r.values, idFlag) == e.id)
    // a refused id write is returned and nothing is written
    ensures var e := Encode(Lookup(values, serviceFlag), nameFlag, Lookup(values, idFlag), Lookup(values, nameFlag));
            !NeitherGiven(values, idFlag, nameFlag) && e.err.None? && idFlag !in writable ==>
              r == Step(Some(WriteRejected(idFlag)), values)
    // a refused name write is returned, and the id write stays
    ensures var e := Encode(Lookup(values, serviceFlag), nameFlag, Lookup(values, idFlag), Lookup(values, nameFlag));
            !NeitherGiven(values, idFlag, nameFlag) && e.err.None? && idFlag in writable && nameFlag !in writable ==>
              r == Step(Some(WriteRejected(nameFlag)), values[idFlag := e.id])
    // no other flag changes
    ensures forall other :: other != idFlag && other != nameFlag ==> Lookup(r.values, other) == Lookup(values, other)
  {
    var id, name, serviceId := Lookup(values, idFlag), Lookup(values, nameFlag), Lookup(values, serviceFlag);
    if id == [] && name == [] then Step(Absent(required, idFlag, nameFlag), values)
    else
      var e := Encode(serviceId, nameFlag, id, name);
      if e.err.Some? then Step(e.err, values)
      else
        var first := Assign(values, writable, idFlag, e.id);
        if first.err.Some? then first
        else Assign(first.values, writable, nameFlag, e.name)
  }

  /** `parseInstance(required, idFlag, nameFlag, serviceFlag)(ctx)`. */
  method ResolvePair(required: bool, idFlag: string, nameFlag: string, serviceFlag: string, ctx: Context)
    returns (err: Option<Error>)
    modifies ctx
    ensures Step(err, ctx.values) == PairOutcome(required, idFlag, nameFlag, serviceFlag, old(ctx.values), ctx.writable)
  {
    var id := ctx.String(idFlag);
    var name := ctx.String(nameFlag);
    var serviceId := ctx.String(serviceFlag);
    if id == [] && name == [] {
      if required {
        return Some(MissingFlag(idFlag, nameFlag));
      }
      return None;
    }
    var e := Encode(serviceId, nameFlag, id, name);
    if e.err.Some? {
      return e.err;
    }
    err := ctx.Set(idFlag, e.id);
    if err.Some? {
      return;
    }
    err := ctx.Set(nameFlag, e.name);
  }

  /** An encode that succeeds is written back, id first, when both flags
      accept writes. */
  lemma PairWritesBack(required: bool, idFlag: string, nameFlag: string, serviceFlag: string,
                       values: map<string, Str>, writable: set<string>)
    requires !NeitherGiven(values, idFlag, nameFlag) && {idFlag, nameFlag} <= writable
    requires Encode(Lookup(values, serviceFlag), nameFlag, Lookup(values, idFlag), Lookup(values, nameFlag)).err.None?
    ensures var e := Encode(Lookup(values, serviceFlag), nameFlag, Lookup(values, idFlag), Lookup(values, nameFlag));
            PairOutcome(required, idFlag, nameFlag, serviceFlag, values, writable)
              == Step(None, values[idFlag := e.id][nameFlag := e.name])
  {
  }

  /** After a successful resolution of a given pair, the id flag holds an
      id that encodes to the name flag's value, whatever service id or name
      it is given with. */
  lemma PairResolvedConsistent(required: bool, idFlag: string, nameFlag: string, serviceFlag: string,
                               values: map<string, Str>, writable: set<string>,
                               otherService: Str, otherFlag: string, otherName: Str)
    requires idFlag != nameFlag && UNDERSCORE !in Lookup(values, serviceFlag)
    requires !NeitherGiven(values, idFlag, nameFlag)
    requires PairOutcome(required, idFlag, nameFlag, serviceFlag, values, writable).err.None?
    ensures var after := PairOutcome(required, idFlag, nameFlag, serviceFlag, values, writable).values;
            var id := Lookup(after, idFlag);
            id != [] && Encode(otherService, otherFlag, id, otherName) == Encoded(id, Lookup(after, nameFlag), None)
  {
    var serviceId, id, name := Lookup(values, serviceFlag), Lookup(values, idFlag), Lookup(values, nameFlag);
    if id == [] {
      RoundTrip(serviceId, nameFlag, name, otherService, otherFlag, otherName);
    }
  }

  /** Resolving a pair a second time changes nothing and succeeds, provided
      the service id flag is a third flag whose value holds no `_`. */
  lemma PairIdempotent(required: bool, idFlag: string, nameFlag: string, serviceFlag: string,
                       values: map<string, Str>, writable: set<string>)
    requires idFlag != nameFlag && serviceFlag != idFlag && serviceFlag != nameFlag
    requires UNDERSCORE !in Lookup(values, serviceFlag)
    requires PairOutcome(required, idFlag, nameFlag, serviceFlag, values, writable).err.None?
    ensures var after := PairOutcome(required, idFlag, nameFlag, serviceFlag, values, writable).values;
            PairOutcome(required, idFlag, nameFlag, serviceFlag, after, writable) == Step(None, after)
  {
    var after := PairOutcome(required, idFlag, nameFlag, serviceFlag, values, writable).values;
    if !NeitherGiven(values, idFlag, nameFlag) {
      var id, name := Lookup(after, idFlag), Lookup(after, nameFlag);
      PairResolvedConsistent(required, idFlag, nameFlag, serviceFlag, values, writable,
                             Lookup(after, serviceFlag), nameFlag, name);
      assert idFlag in after && after[idFlag := id] == after;
      assert nameFlag in after && after[nameFlag := name] == after;
    }
  }

  // ---------------------------------------------------------------------
  // parseInstanceList: comma-joined lists of ids and names

  /** The entry at position `i`, the empty string past the end. */
  function At(xs: seq<Str>, i: nat): Str
  {
    if i < |xs| then xs[i] else []
  }

  /** The number of positions a list resolution works on: the entries of
      the id list when it is given, otherwise those of the name list. */
  function ListSize(idsArg: Str, namesArg: Str): (n: nat)
    ensures n == if idsArg != [] then Count(idsArg, COMMA) + 1 else Count(namesArg, COMMA) + 1
  {
    var ids := Split(idsArg, COMMA);
    if idsArg != [] && |ids| != 0 then |ids| else |Split(namesArg, COMMA)|
  }

  /** `encode` on the entries at position `i` of the two lists. */
  function EncodeAt(serviceId: Str, nameFlag: string, ids: seq<Str>, names: seq<Str>, i: nat): Encoded
  {
    Encode(serviceId, nameFlag, At(ids, i), At(names, i))
  }

  /** The outcome of the resolution loop: the resolved ids and names, or
      the error that stopped it. */
  datatype ListResult = ListOk(ids: seq<Str>, names: seq<Str>) | ListErr(error: Error)

  /** The resolution loop over its first `n` positions, where `step(i)` is
      what `encode` gives at position `i`: it collects the ids and names in
      order and stops at the first position that fails. */
  function Loop(step: nat -> Encoded, n: nat): (r: ListResult)
    ensures r.ListOk? ==> |r.ids| == n && |r.names| == n
    decreases n
  {
    if n == 0 then ListOk([], [])
    else
      match Loop(step, n - 1)
      case ListErr(e) => ListErr(e)
      case ListOk(doneIds, doneNames) =>
        var e := step(n - 1);
        if e.err.Some? then ListErr(e.err.value)
        else ListOk(doneIds + [e.id], doneNames + [e.name])
  }

  /** `encode` position by position over the two lists. */
  function Steps(serviceId: Str, nameFlag: string, ids: seq<Str>, names: seq<Str>): nat -> Encoded
  {
    (i: nat) => EncodeAt(serviceId, nameFlag, ids, names, i)
  }

  /** The loop of `parseInstanceList` over its first `n` positions. */
  function EncodeList(serviceId: Str, nameFlag: string, ids: seq<Str>, names: seq<Str>, n: nat): ListResult
  {
    Loop(Steps(serviceId, nameFlag, ids, names), n)
  }

  /** The loop succeeds exactly when every step succeeds, and then entry `i`
      of each output is what step `i` gives. */
  lemma {:induction false} LoopOk(step: nat -> Encoded, n: nat)
    ensures Loop(step, n).ListOk? <==> forall i :: 0 <= i < n ==> step(i).err.None?
    ensures Loop(step, n).ListOk? ==>
              forall i :: 0 <= i < n ==> Loop(step, n).ids[i] == step(i).id && Loop(step, n).names[i] == step(i).name
    decreases n
  {
    if n > 0 {
      LoopOk(step, n - 1);
      var prev := Loop(step, n - 1);
      if prev.ListErr? {
        var i :| 0 <= i < n - 1 && step(i).err.Some?;
      } else if step(n - 1).err.None? {
        var r := Loop(step, n);
        forall i | 0 <= i < n
          ensures r.ids[i] == step(i).id && r.names[i] == step(i).name
        {
          if i < n - 1 {
            assert r.ids[i] == prev.ids[i] && r.names[i] == prev.names[i];
          }
        }
      }
    }
  }

  /** Once the loop has failed, later steps do not matter. */
  lemma {:induction false} LoopErrPersists(step: nat -> Encoded, k: nat, n: nat)
    requires k <= n && Loop(step, k).ListErr?
    ensures Loop(step, n) == Loop(step, k)
    decreases n
  {
    if n > k {
      LoopErrPersists(step, k, n - 1);
    }
  }

  /** The loop fails with the error of the first step that fails. */
  lemma LoopFirstError(step: nat -> Encoded, k: nat, n: nat)
    requires k < n && step(k).err.Some?
    requires forall i :: 0 <= i < k ==> step(i).err.None?
    ensures Loop(step, n) == ListErr(step(k).err.value)
  {
    LoopOk(step, k);
    LoopErrPersists(step, k + 1, n);
  }

  /** Two loops whose first `n` steps agree give the same result. */
  lemma {:induction false} LoopAgrees(step: nat -> Encoded, step': nat -> Encoded, n: nat)
    requires forall i :: 0 <= i < n ==> step(i) == step'(i)
    ensures Loop(step, n) == Loop(step', n)
    decreases n
  {
    if n > 0 {
      LoopAgrees(step, step', n - 1);
    }
  }

  /** The loop of `parseInstanceList` succeeds exactly when every position
      encodes, and then entry `i` of each output is what `encode` gives at
      position `i`. */
  lemma EncodeListOk(serviceId: Str, nameFlag: string, ids: seq<Str>, names: seq<Str>, n: nat)
    ensures EncodeList(serviceId, nameFlag, ids, names, n).ListOk? <==>
              forall i :: 0 <= i < n ==> EncodeAt(serviceId, nameFlag, ids, names, i).err.None?
    ensures var r := EncodeList(serviceId, nameFlag, ids, names, n);
            r.ListOk? ==> |r.ids| == n && |r.names| == n && forall i :: 0 <= i < n ==>
              r.ids[i] == EncodeAt(serviceId, nameFlag, ids, names, i).id &&
              r.names[i] == EncodeAt(serviceId, nameFlag, ids, names, i).name
  {
    var step := Steps(serviceId, nameFlag, ids, names);
    LoopOk(step, n);
    assert forall i :: 0 <= i < n ==> step(i) == EncodeAt(serviceId, nameFlag, ids, names, i);
  }

  /** Entries past the working length play no part: the loop over `n`
      positions sees the same lists cut to their first `k >= n` entries. */
  lemma EncodeListIgnoresLaterEntries(serviceId: Str, nameFlag: string, ids: seq<Str>, names: seq<Str>, n: nat, k: nat)
    requires n <= k
    ensures EncodeList(serviceId, nameFlag, ids, names, n) ==
            EncodeList(serviceId, nameFlag, ids[..if k < |ids| then k else |ids|], names[..if k < |names| then k else |names|], n)
  {
    var ids', names' := ids[..if k < |ids| then k else |ids|], names[..if k < |names| then k else |names|];
    forall i | 0 <= i < n
      ensures Steps(serviceId, nameFlag, ids, names)(i) == Steps(serviceId, nameFlag, ids', names')(i)
    {
      assert At(ids', i) == At(ids, i) && At(names', i) == At(names, i);
    }
    LoopAgrees(Steps(serviceId, nameFlag, ids, names), Steps(serviceId, nameFlag, ids', names'), n);
  }

  /** The `for` loop of `parseInstanceList`, filling the two preallocated
      slices by position and returning at the first failing position. */
  method EncodeAll(serviceId: Str, nameFlag: string, ids: seq<Str>, names: seq<Str>, n: nat) returns (r: ListResult)
    ensures r == EncodeList(serviceId, nameFlag, ids, names, n)
  {
    var idSlice := new Str[n](_ => []);
    var nameSlice := new Str[n](_ => []);
    var i := 0;
    while i < n
      invariant 0 <= i <= n
      invariant EncodeList(serviceId, nameFlag, ids, names, i) == ListOk(idSlice[..i], nameSlice[..i])
    {
      var id: Str := [];
      var name: Str := [];
      if |ids| > i {
        id := ids[i];
      }
      if |names| > i {
        name := names[i];
      }
      var e := Encode(serviceId, nameFlag, id, name);
      if e.err.Some? {
        LoopErrPersists(Steps(serviceId, nameFlag, ids, names), i + 1, n);
        return ListErr(e.err.value);
      }
      idSlice[i] := e.id;
      nameSlice[i] := e.name;
      assert idSlice[..i + 1] == idSlice[..i] + [e.id];
      assert nameSlice[..i + 1] == nameSlice[..i] + [e.name];
      i := i + 1;
    }
    assert idSlice[..] == idSlice[..n] && nameSlice[..] == nameSlice[..n];
    return ListOk(idSlice[..], nameSlice[..]);
  }

  /** What the loop computes from the raw list flag values. */
  function EncodeLists(serviceId: Str, nameFlag: string, idsArg: Str, namesArg: Str): (r: ListResult)
    ensures r.ListOk? ==> |r.ids| == ListSize(idsArg, namesArg) && |r.names| == ListSize(idsArg, namesArg)
  {
    EncodeList(serviceId, nameFlag, Split(idsArg, COMMA), Split(namesArg, COMMA), ListSize(idsArg, namesArg))
  }

  /** What `parseInstanceList` does to the flag values. */
  function ListOutcome(required: bool, idListFlag: string, nameListFlag: string, serviceFlag: string,
                       values: map<string, Str>, writable: set<string>): (r: Step)
    // both list flags empty: an error if required, otherwise nothing happens
    ensures NeitherGiven(values, idListFlag, nameListFlag) ==>
              r == Step(Absent(required, idListFlag, nameListFlag), values)
    // a failing position writes no flag and its error is returned unchanged
    ensures var lists := EncodeLists(Lookup(values, serviceFlag), nameListFlag,
                                     Lookup(values, idListFlag), Lookup(values, nameListFlag));
            !NeitherGiven(values, idListFlag, nameListFlag) && lists.ListErr? ==>
              r == Step(Some(lists.error), values)
    // no other flag changes
    ensures forall other :: other != idListFlag && other != nameListFlag ==>
              Lookup(r.values, other) == Lookup(values, other)
  {
    var idsArg, namesArg := Lookup(values, idListFlag), Lookup(values, nameListFlag);
    var serviceId := Lookup(values, serviceFlag);
    if idsArg == [] && namesArg == [] then Step(Absent(required, idListFlag, nameListFlag), values)
    else
      match EncodeLists(serviceId, nameListFlag, idsArg, namesArg)
      case ListErr(e) => Step(Some(e), values)
      case ListOk(outIds, outNames) =>
        var first := Assign(values, writable, idListFlag, Join(outIds, COMMA));
        if first.err.Some? then first
        else Assign(first.values, writable, nameListFlag, Join(outNames, COMMA))
  }

  /** `parseInstanceList(required, idListFlag, nameListFlag, serviceFlag)(ctx)`. */
  method ResolveList(required: bool, idListFlag: string, nameListFlag: string, serviceFlag: string, ctx: Context)
    returns (err: Option<Error>)
    modifies ctx
    ensures Step(err, ctx.values) == ListOutcome(required, idListFlag, nameListFlag, serviceFlag, old(ctx.values), ctx.writable)
  {
    var idsArg := ctx.String(idListFlag);
    var namesArg := ctx.String(nameListFlag);
    var serviceId := ctx.String(serviceFlag);
    if idsArg == [] && namesArg == [] {
      if required {
        return Some(MissingFlag(idListFlag, nameListFlag));
      }
      return None;
    }
    var ids := Split(idsArg, COMMA);
    var names := Split(namesArg, COMMA);
    var size: nat;
    if idsArg != [] && |ids| != 0 {
      size := |ids|;
    } else {
      size := |names|;
    }
    var lists := EncodeAll(serviceId, nameListFlag, ids, names, size);
    if lists.ListErr? {
      return Some(lists.error);
    }
    err := ctx.Set(idListFlag, Join(lists.ids, COMMA));
    if err.Some? {
      return;
    }
    err := ctx.Set(nameListFlag, Join(lists.names, COMMA));
  }

  /** A loop that succeeds is written back, ids first, when both list
      flags accept writes. */
  lemma ListWritesBack(required: bool, idListFlag: string, nameListFlag: string, serviceFlag: string,
                       values: map<string, Str>, writable: set<string>)
    requires !NeitherGiven(values, idListFlag, nameListFlag) && {idListFlag, nameListFlag} <= writable
    requires EncodeLists(Lookup(values, serviceFlag), nameListFlag, Lookup(values, idListFlag), Lookup(values, nameListFlag)).ListOk?
    ensures var lists := EncodeLists(Lookup(values, serviceFlag), nameListFlag, Lookup(values, idListFlag), Lookup(values, nameListFlag));
            ListOutcome(required, idListFlag, nameListFlag, serviceFlag, values, writable)
              == Step(None, values[idListFlag := Join(lists.ids, COMMA)][nameListFlag := Join(lists.names, COMMA)])
  {
  }

  /** A refused write of a list flag is returned; a refused id-list write
      leaves every flag as it was, and a refused name-list write keeps the
      id-list write before it. */
  lemma ListWriteRejected(required: bool, idListFlag: string, nameListFlag: string, serviceFlag: string,
                          values: map<string, Str>, writable: set<string>)
    requires !NeitherGiven(values, idListFlag, nameListFlag)
    requires EncodeLists(Lookup(values, serviceFlag), nameListFlag, Lookup(values, idListFlag), Lookup(values, nameListFlag)).ListOk?
    ensures var lists := EncodeLists(Lookup(values, serviceFlag), nameListFlag, Lookup(values, idListFlag), Lookup(values, nameListFlag));
            var r := ListOutcome(required, idListFlag, nameListFlag, serviceFlag, values, writable);
            (idListFlag !in writable ==> r == Step(Some(WriteRejected(idListFlag)), values)) &&
            (idListFlag in writable && nameListFlag !in writable ==>
               r == Step(Some(WriteRejected(nameListFlag)), values[idListFlag := Join(lists.ids, COMMA)]))
  {
  }

  /** On success each list flag holds the comma-join of what `encode` gives
      position by position, over `ListSize` positions, taking a missing
      entry of either list as empty. */
  lemma ListResolved(required: bool, idListFlag: string, nameListFlag: string, serviceFlag: string,
                     values: map<string, Str>, writable: set<string>)
    requires idListFlag != nameListFlag
    requires !NeitherGiven(values, idListFlag, nameListFlag)
    requires ListOutcome(required, idListFlag, nameListFlag, serviceFlag, values, writable).err.None?
    ensures var idsArg, namesArg := Lookup(values, idListFlag), Lookup(values, nameListFlag);
            var ids, names := Split(idsArg, COMMA), Split(namesArg, COMMA);
            var n := ListSize(idsArg, namesArg);
            var serviceId := Lookup(values, serviceFlag);
            var after := ListOutcome(required, idListFlag, nameListFlag, serviceFlag, values, writable).values;
            {idListFlag, nameListFlag} <= writable &&
            Lookup(after, idListFlag) ==
              Join(seq(n, i requires 0 <= i < n => EncodeAt(serviceId, nameListFlag, ids, names, i).id), COMMA) &&
            Lookup(after, nameListFlag) ==
              Join(seq(n, i requires 0 <= i < n => EncodeAt(serviceId, nameListFlag, ids, names, i).name), COMMA)
  {
    var idsArg, namesArg := Lookup(values, idListFlag), Lookup(values, nameListFlag);
    var ids, names := Split(idsArg, COMMA), Split(namesArg, COMMA);
    var n := ListSize(idsArg, namesArg);
    var serviceId := Lookup(values, serviceFlag);
    EncodeListEntries(serviceId, nameListFlag, ids, names, n);
  }

  /** A loop that succeeds lists, position by position, what `encode` gives. */
  lemma EncodeListEntries(serviceId: Str, nameFlag: string, ids: seq<Str>, names: seq<Str>, n: nat)
    ensures var r := EncodeList(serviceId, nameFlag, ids, names, n);
            r.ListOk? ==>
              r.ids == seq(n, i requires 0 <= i < n => EncodeAt(serviceId, nameFlag, ids, names, i).id) &&
              r.names == seq(n, i requires 0 <= i < n => EncodeAt(serviceId, nameFlag, ids, names, i).name)
  {
    var r := EncodeList(serviceId, nameFlag, ids, names, n);
    EncodeListOk(serviceId, nameFlag, ids, names, n);
    if r.ListOk? {
      assert r.ids == seq(n, i requires 0 <= i < n => EncodeAt(serviceId, nameFlag, ids, names, i).id);
      assert r.names == seq(n, i requires 0 <= i < n => EncodeAt(serviceId, nameFlag, ids, names, i).name);
    }
  }

  // ---------------------------------------------------------------------
  // The exported orchestrators

  /** `ParseInstance(required)`: the service, then the instance pair. */
  function InstanceOutcome(required: bool, parseService: ServiceStep, values: map<string, Str>, writable: set<string>): (r: Step)
    ensures parseService(required, values).err.Some? ==> r == parseService(required, values)
    ensures var s := parseService(required, values);
            s.err.None? ==> r == PairOutcome(required, INSTANCE_ID_FLAG, INSTANCE_NAME_FLAG, SERVICE_ID_FLAG, s.values, writable)
  {
    var s := parseService(required, values);
    if s.err.Some? then s
    else PairOutcome(required, INSTANCE_ID_FLAG, INSTANCE_NAME_FLAG, SERVICE_ID_FLAG, s.values, writable)
  }

  /** `ParseInstanceList(required)`: the service, then the instance lists. */
  function InstanceListOutcome(required: bool, parseService: ServiceStep, values: map<string, Str>, writable: set<string>): (r: Step)
    ensures parseService(required, values).err.Some? ==> r == parseService(required, values)
    ensures var s := parseService(required, values);
            s.err.None? ==> r == ListOutcome(required, INSTANCE_ID_LIST_FLAG, INSTANCE_NAME_LIST_FLAG, SERVICE_ID_FLAG, s.values, writable)
  {
    var s := parseService(required, values);
    if s.err.Some? then s
    else ListOutcome(required, INSTANCE_ID_LIST_FLAG, INSTANCE_NAME_LIST_FLAG, SERVICE_ID_FLAG, s.values, writable)
  }

  /** `ParseInstanceRelation(required)`: the service, then `ParseInstance`
      (which resolves the service once more), then the destination pair. */
  function RelationOutcome(required: bool, parseService: ServiceStep, values: map<string, Str>, writable: set<string>): (r: Step)
    // a failing service step is the result, unchanged
    ensures parseService(required, values).err.Some? ==> r == parseService(required, values)
    // so is a failing primary instance step, with what earlier steps wrote
    ensures var s := parseService(required, values);
            var primary := InstanceOutcome(required, parseService, s.values, writable);
            s.err.None? && primary.err.Some? ==> r == primary
    // success needs every step to succeed
    ensures var s := parseService(required, values);
            r.err.None? ==> s.err.None? && InstanceOutcome(required, parseService, s.values, writable).err.None?
    // the destination step, failing or not, keeps the resolved primary instance
    ensures var s := parseService(required, values);
            var primary := InstanceOutcome(required, parseService, s.values, writable);
            s.err.None? && primary.err.None? ==>
              Lookup(r.values, INSTANCE_ID_FLAG) == Lookup(primary.values, INSTANCE_ID_FLAG) &&
              Lookup(r.values, INSTANCE_NAME_FLAG) == Lookup(primary.values, INSTANCE_NAME_FLAG)
    // only the destination step speaks for the destination flags once the primary is resolved
    ensures var s := parseService(required, values);
            var primary := InstanceOutcome(required, parseService, s.values, writable);
            s.err.None? && primary.err.None? ==>
              r == PairOutcome(required, DEST_INSTANCE_ID_FLAG, DEST_INSTANCE_NAME_FLAG, DEST_SERVICE_ID_FLAG, primary.values, writable)
  {
    var s := parseService(required, values);
    if s.err.Some? then s
    else
      var primary := InstanceOutcome(required, parseService, s.values, writable);
      if primary.err.Some? then primary
      else PairOutcome(required, DEST_INSTANCE_ID_FLAG, DEST_INSTANCE_NAME_FLAG, DEST_SERVICE_ID_FLAG, primary.values, writable)
  }

  /** Runs the service resolver on the context. */
  method RunService(required: bool, parseService: ServiceStep, ctx: Context) returns (err: Option<Error>)
    modifies ctx
    ensures Step(err, ctx.values) == parseService(required, old(ctx.values))
  {
    var s := parseService(required, ctx.values);
    ctx.values := s.values;
    err := s.err;
  }

  method ParseInstance(required: bool, parseService: ServiceStep, ctx: Context) returns (err: Option<Error>)
    modifies ctx
    ensures Step(err, ctx.values) == InstanceOutcome(required, parseService, old(ctx.values), ctx.writable)
  {
    err := RunService(required, parseService, ctx);
    if err.Some? {
      return;
    }
    err := ResolvePair(required, INSTANCE_ID_FLAG, INSTANCE_NAME_FLAG, SERVICE_ID_FLAG, ctx);
  }

  method ParseInstanceList(required: bool, parseService: ServiceStep, ctx: Context) returns (err: Option<Error>)
    modifies ctx
    ensures Step(err, ctx.values) == InstanceListOutcome(required, parseService, old(ctx.values), ctx.writable)
  {
    err := RunService(required, parseService, ctx);
    if err.Some? {
      return;
    }
    err := ResolveList(required, INSTANCE_ID_LIST_FLAG, INSTANCE_NAME_LIST_FLAG, SERVICE_ID_FLAG, ctx);
  }

  method ParseInstanceRelation(required: bool, parseService: ServiceStep, ctx: Context) returns (err: Option<Error>)
    modifies ctx
    ensures Step(err, ctx.values) == RelationOutcome(required, parseService, old(ctx.values), ctx.writable)
  {
    err := RunService(required, parseService, ctx);
    if err.Some? {
      return;
    }
    err := ParseInstance(required, parseService, ctx);
    if err.Some? {
      return;
    }
    err := ResolvePair(required, DEST_INSTANCE_ID_FLAG, DEST_INSTANCE_NAME_FLAG, DEST_SERVICE_ID_FLAG, ctx);
  }
}
