/** Worked cases of the resolvers on concrete flag values. Strings are spelt
    as their ASCII bytes, with the text in a comment. */
module InstanceExamples {
  import opened Wrappers
  import opened GoStrings
  import opened Errors
  import opened FlagContext
  import opened InstanceCodec
  import opened Instance
  import Base64

  const LIST_FLAGS: set<string> := {INSTANCE_ID_LIST_FLAG, INSTANCE_NAME_LIST_FLAG}

  /** A given id without `_` is malformed, whatever else is given. */
  lemma MalformedIdRejected(serviceId: Str, nameFlag: string, id: Str, name: Str)
    requires id != [] && UNDERSCORE !in id
    ensures Encode(serviceId, nameFlag, id, name) == Encoded([], [], Some(BadFormat(id)))
  {
    CountAbsent(id, UNDERSCORE);
    EncodeSeparatorCount(serviceId, nameFlag, id, name);
  }

  /** Two comma-free entries joined by `,` split back into the two. */
  lemma SplitPair(s0: Str, s1: Str)
    requires COMMA !in s0 && COMMA !in s1
    ensures Split(s0 + [COMMA] + s1, COMMA) == [s0, s1]
  {
    SplitPrefix(s0, s1, COMMA);
    SplitFree(s1, COMMA);
  }

  /** The loop over two positions that both encode. */
  lemma EncodeTwo(serviceId: Str, ids: seq<Str>, names: seq<Str>, e0: Encoded, e1: Encoded)
    requires EncodeAt(serviceId, INSTANCE_NAME_LIST_FLAG, ids, names, 0) == e0 && e0.err.None?
    requires EncodeAt(serviceId, INSTANCE_NAME_LIST_FLAG, ids, names, 1) == e1 && e1.err.None?
    ensures EncodeList(serviceId, INSTANCE_NAME_LIST_FLAG, ids, names, 2) == ListOk([e0.id, e1.id], [e0.name, e1.name])
  {
    assert EncodeList(serviceId, INSTANCE_NAME_LIST_FLAG, ids, names, 1) == ListOk([e0.id], [e0.name]);
  }

  /** The loop over two well-formed ids and no names. */
  lemma TwoIdsLists(serviceId: Str, p0: Str, q0: Str, p1: Str, q1: Str, n0: Str, n1: Str)
    requires UNDERSCORE !in p0 && UNDERSCORE !in q0 && UNDERSCORE !in p1 && UNDERSCORE !in q1
    requires COMMA !in p0 && COMMA !in q0 && COMMA !in p1 && COMMA !in q1
    requires Base64.Decode(q0) == Some(n0) && Base64.Decode(q1) == Some(n1)
    ensures EncodeLists(serviceId, INSTANCE_NAME_LIST_FLAG, p0 + [UNDERSCORE] + q0 + [COMMA] + p1 + [UNDERSCORE] + q1, [])
         == ListOk([p0 + [UNDERSCORE] + q0, p1 + [UNDERSCORE] + q1], [n0, n1])
  {
    var id0, id1 := p0 + [UNDERSCORE] + q0, p1 + [UNDERSCORE] + q1;
    assert COMMA !in id0 && COMMA !in id1;
    assert p0 + [UNDERSCORE] + q0 + [COMMA] + p1 + [UNDERSCORE] + q1 == id0 + [COMMA] + id1;
    SplitPair(id0, id1);
    EncodeWellFormedId(serviceId, INSTANCE_NAME_LIST_FLAG, p0, q0, []);
    EncodeWellFormedId(serviceId, INSTANCE_NAME_LIST_FLAG, p1, q1, []);
    assert ListSize(id0 + [COMMA] + id1, []) == 2;
    EncodeTwo(serviceId, [id0, id1], [[]], Encoded(id0, n0, None), Encoded(id1, n1, None));
  }

  /** Two well-formed ids and no names: the names are the decodings, in
      order, and the id list is written back as it was. */
  lemma TwoIds(p0: Str, q0: Str, p1: Str, q1: Str, n0: Str, n1: Str, values: map<string, Str>)
    requires UNDERSCORE !in p0 && UNDERSCORE !in q0 && UNDERSCORE !in p1 && UNDERSCORE !in q1
    requires COMMA !in p0 && COMMA !in q0 && COMMA !in p1 && COMMA !in q1
    requires Base64.Decode(q0) == Some(n0) && Base64.Decode(q1) == Some(n1)
    requires Lookup(values, INSTANCE_ID_LIST_FLAG) == p0 + [UNDERSCORE] + q0 + [COMMA] + p1 + [UNDERSCORE] + q1
    requires Lookup(values, INSTANCE_NAME_LIST_FLAG) == []
    ensures ListOutcome(false, INSTANCE_ID_LIST_FLAG, INSTANCE_NAME_LIST_FLAG, SERVICE_ID_FLAG, values, LIST_FLAGS)
              == Step(None, values[INSTANCE_ID_LIST_FLAG := Lookup(values, INSTANCE_ID_LIST_FLAG)]
                                  [INSTANCE_NAME_LIST_FLAG := n0 + [COMMA] + n1])
  {
    var id0, id1 := p0 + [UNDERSCORE] + q0, p1 + [UNDERSCORE] + q1;
    TwoIdsLists(Lookup(values, SERVICE_ID_FLAG), p0, q0, p1, q1, n0, n1);
    JoinTwo(id0, id1);
    JoinTwo(n0, n1);
    Regroup(p0, q0, p1, q1);
    WrittenBack(values, [id0, id1], [n0, n1]);
  }

  lemma Regroup(p0: Str, q0: Str, p1: Str, q1: Str)
    ensures p0 + [UNDERSCORE] + q0 + [COMMA] + p1 + [UNDERSCORE] + q1 == (p0 + [UNDERSCORE] + q0) + [COMMA] + (p1 + [UNDERSCORE] + q1)
  {
  }

  lemma JoinTwo(a: Str, b: Str)
    ensures Join([a, b], COMMA) == a + [COMMA] + b
  {
    assert [a, b][1..] == [b];
  }

  /** A successful loop over the two list flags is written back. */
  lemma WrittenBack(values: map<string, Str>, ids: seq<Str>, names: seq<Str>)
    requires !NeitherGiven(values, INSTANCE_ID_LIST_FLAG, INSTANCE_NAME_LIST_FLAG)
    requires EncodeLists(Lookup(values, SERVICE_ID_FLAG), INSTANCE_NAME_LIST_FLAG,
                         Lookup(values, INSTANCE_ID_LIST_FLAG), Lookup(values, INSTANCE_NAME_LIST_FLAG)) == ListOk(ids, names)
    ensures ListOutcome(false, INSTANCE_ID_LIST_FLAG, INSTANCE_NAME_LIST_FLAG, SERVICE_ID_FLAG, values, LIST_FLAGS)
              == Step(None, values[INSTANCE_ID_LIST_FLAG := Join(ids, COMMA)][INSTANCE_NAME_LIST_FLAG := Join(names, COMMA)])
  {
    ListWritesBack(false, INSTANCE_ID_LIST_FLAG, INSTANCE_NAME_LIST_FLAG, SERVICE_ID_FLAG, values, LIST_FLAGS);
  }

  /** Ids `a_QQ==,b_Qg==` and no names resolve to the names `A,B`. */
  lemma ListOfIds(values: map<string, Str>)
    requires values == map[INSTANCE_ID_LIST_FLAG := [97, 95, 81, 81, 61, 61, 44, 98, 95, 81, 103, 61, 61]]  // a_QQ==,b_Qg==
    ensures ListOutcome(false, INSTANCE_ID_LIST_FLAG, INSTANCE_NAME_LIST_FLAG, SERVICE_ID_FLAG, values, LIST_FLAGS)
              == Step(None, values[INSTANCE_NAME_LIST_FLAG := [65, 44, 66]])  // A,B
  {
    ListOfIdsResolved(values);
    ListOfIdsWritten(values);
  }

  lemma ListOfIdsResolved(values: map<string, Str>)
    requires values == map[INSTANCE_ID_LIST_FLAG := [97, 95, 81, 81, 61, 61, 44, 98, 95, 81, 103, 61, 61]]
    ensures ListOutcome(false, INSTANCE_ID_LIST_FLAG, INSTANCE_NAME_LIST_FLAG, SERVICE_ID_FLAG, values, LIST_FLAGS)
              == Step(None, values[INSTANCE_ID_LIST_FLAG := Lookup(values, INSTANCE_ID_LIST_FLAG)]
                                  [INSTANCE_NAME_LIST_FLAG := [65] + [COMMA] + [66]])
  {
    assert Base64.Decode([81, 81, 61, 61]) == Some([65]);
    assert Base64.Decode([81, 103, 61, 61]) == Some([66]);
    TwoIds([97], [81, 81, 61, 61], [98], [81, 103, 61, 61], [65], [66], values);
  }

  lemma ListOfIdsWritten(values: map<string, Str>)
    requires values == map[INSTANCE_ID_LIST_FLAG := [97, 95, 81, 81, 61, 61, 44, 98, 95, 81, 103, 61, 61]]
    ensures values[INSTANCE_ID_LIST_FLAG := Lookup(values, INSTANCE_ID_LIST_FLAG)][INSTANCE_NAME_LIST_FLAG := [65] + [COMMA] + [66]]
         == values[INSTANCE_NAME_LIST_FLAG := [65, 44, 66]]
  {
    assert [65] + [COMMA] + [66] == [65, 44, 66];
    assert values[INSTANCE_ID_LIST_FLAG := Lookup(values, INSTANCE_ID_LIST_FLAG)] == values;
  }

  /** The loop over two names under a service id and no ids. */
  lemma TwoNamesLists(serviceId: Str, n0: Str, n1: Str)
    requires serviceId != [] && n0 != [] && n1 != [] && COMMA !in n0 && COMMA !in n1
    ensures EncodeLists(serviceId, INSTANCE_NAME_LIST_FLAG, [], n0 + [COMMA] + n1)
         == ListOk([serviceId + [UNDERSCORE] + Base64.Encode(n0), serviceId + [UNDERSCORE] + Base64.Encode(n1)], [n0, n1])
  {
    var id0, id1 := serviceId + [UNDERSCORE] + Base64.Encode(n0), serviceId + [UNDERSCORE] + Base64.Encode(n1);
    SplitPair(n0, n1);
    EncodeTwo(serviceId, [[]], [n0, n1], Encoded(id0, n0, None), Encoded(id1, n1, None));
  }

  /** Two names under a service id and no ids: the ids are built from the
      names, in order, and the name list is written back as it was. */
  lemma TwoNames(serviceId: Str, n0: Str, n1: Str, values: map<string, Str>)
    requires serviceId != [] && n0 != [] && n1 != [] && COMMA !in n0 && COMMA !in n1
    requires Lookup(values, SERVICE_ID_FLAG) == serviceId
    requires Lookup(values, INSTANCE_ID_LIST_FLAG) == []
    requires Lookup(values, INSTANCE_NAME_LIST_FLAG) == n0 + [COMMA] + n1
    ensures ListOutcome(false, INSTANCE_ID_LIST_FLAG, INSTANCE_NAME_LIST_FLAG, SERVICE_ID_FLAG, values, LIST_FLAGS)
              == Step(None, values[INSTANCE_ID_LIST_FLAG :=
                                    serviceId + [UNDERSCORE] + Base64.Encode(n0) + [COMMA] +
                                    serviceId + [UNDERSCORE] + Base64.Encode(n1)]
                                  [INSTANCE_NAME_LIST_FLAG := n0 + [COMMA] + n1])
  {
    var id0, id1 := serviceId + [UNDERSCORE] + Base64.Encode(n0), serviceId + [UNDERSCORE] + Base64.Encode(n1);
    TwoNamesLists(serviceId, n0, n1);
    JoinTwo(id0, id1);
    JoinTwo(n0, n1);
    RegroupIds(serviceId, Base64.Encode(n0), Base64.Encode(n1));
    WrittenBack(values, [id0, id1], [n0, n1]);
  }

  lemma RegroupIds(serviceId: Str, q0: Str, q1: Str)
    ensures (serviceId + [UNDERSCORE] + q0) + [COMMA] + (serviceId + [UNDERSCORE] + q1)
         == serviceId + [UNDERSCORE] + q0 + [COMMA] + serviceId + [UNDERSCORE] + q1
  {
  }

  /** Names `X,Y` under the service id `svc` resolve to the ids
      `svc_WA==,svc_WQ==`. */
  lemma ListOfNames(values: map<string, Str>)
    requires values == map[INSTANCE_NAME_LIST_FLAG := [88, 44, 89], SERVICE_ID_FLAG := [115, 118, 99]]  // X,Y and svc
    ensures ListOutcome(false, INSTANCE_ID_LIST_FLAG, INSTANCE_NAME_LIST_FLAG, SERVICE_ID_FLAG, values, LIST_FLAGS)
              == Step(None, values[INSTANCE_ID_LIST_FLAG :=
                   [115, 118, 99, 95, 87, 65, 61, 61, 44, 115, 118, 99, 95, 87, 81, 61, 61]])  // svc_WA==,svc_WQ==
  {
    TwoNames([115, 118, 99], [88], [89], values);
    ListOfNamesWritten(values);
  }

  lemma ListOfNamesWritten(values: map<string, Str>)
    requires values == map[INSTANCE_NAME_LIST_FLAG := [88, 44, 89], SERVICE_ID_FLAG := [115, 118, 99]]
    ensures values[INSTANCE_ID_LIST_FLAG := [115, 118, 99] + [UNDERSCORE] + Base64.Encode([88]) + [COMMA] +
                                            [115, 118, 99] + [UNDERSCORE] + Base64.Encode([89])]
                  [INSTANCE_NAME_LIST_FLAG := [88] + [COMMA] + [89]]
         == values[INSTANCE_ID_LIST_FLAG := [115, 118, 99, 95, 87, 65, 61, 61, 44, 115, 118, 99, 95, 87, 81, 61, 61]]
  {
    assert Base64.Encode([88]) == [87, 65, 61, 61];
    assert Base64.Encode([89]) == [87, 81, 61, 61];
    assert [88] + [COMMA] + [89] == [88, 44, 89];
    assert [115, 118, 99] + [UNDERSCORE] + [87, 65, 61, 61] + [COMMA] + [115, 118, 99] + [UNDERSCORE] + [87, 81, 61, 61]
        == [115, 118, 99, 95, 87, 65, 61, 61, 44, 115, 118, 99, 95, 87, 81, 61, 61];
    assert values[INSTANCE_NAME_LIST_FLAG := [88, 44, 89]] == values;
  }
}
