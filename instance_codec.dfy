/** The codec between an instance id and an instance name (`encode` in
    internal/commands/interceptor/instance.go). An instance id has the form
    `<service id>_<base64 of the instance name>`. */
module InstanceCodec {
  import opened Wrappers
  import opened GoStrings
  import opened Errors
  import Base64

  /** The separator `_` between the service id and the encoded name. */
  const UNDERSCORE: Byte := 95

  /** The three results of `encode`: the instance id, the instance name and
      the error, if any. */
  datatype Encoded = Encoded(id: Str, name: Str, err: Option<Error>)

  /** Derives whichever of the id and the name is missing. A given id wins:
      it must split on `_` into exactly two parts, and the name becomes the
      base64 decoding of the second. Otherwise a given name is turned into an
      id under the service id, which must then be present. `nameFlag` is
      only reported in the error for a missing service id. */
  function Encode(serviceId: Str, nameFlag: string, id: Str, name: Str): (r: Encoded)
    ensures r.err.Some? ==> r.id == [] && r.name == []
    ensures r.err.None? && id != [] ==> r.id == id
    ensures r.err.None? && id == [] ==> r.name == name
    ensures r.err.None? ==> (r.id == [] <==> id == [] && name == [])
  {
    if id != [] then
      var parts := Split(id, UNDERSCORE);
      if |parts| != 2 then Encoded([], [], Some(BadFormat(id)))
      else
        match Base64.Decode(parts[1])
        case None => Encoded([], [], Some(DecodeFailure(parts[1])))
        case Some(decoded) => Encoded(id, decoded, None)
    else if name != [] then
      if serviceId == [] then Encoded([], [], Some(MissingService(nameFlag)))
      else Encoded(serviceId + [UNDERSCORE] + Base64.Encode(name), name, None)
    else Encoded(id, name, None)
  }

  /** A given id is rejected as malformed exactly when it does not hold one
      `_`; when it does, it is the part before it, `_` and the part after. */
  lemma EncodeSeparatorCount(serviceId: Str, nameFlag: string, id: Str, name: Str)
    requires id != []
    ensures Encode(serviceId, nameFlag, id, name).err == Some(BadFormat(id)) <==> Count(id, UNDERSCORE) != 1
    ensures Count(id, UNDERSCORE) == 1 ==>
              id == Split(id, UNDERSCORE)[0] + [UNDERSCORE] + Split(id, UNDERSCORE)[1]
  {
    if Count(id, UNDERSCORE) == 1 {
      SplitTwo(id, UNDERSCORE);
    }
  }

  /** An id made of a `_`-free prefix, `_` and a `_`-free suffix is kept,
      and the name is the base64 decoding of the suffix; a suffix that does
      not decode fails with both outputs empty. The prefix is not compared
      with the service id, and a given name is ignored. */
  lemma {:induction false} EncodeWellFormedId(serviceId: Str, nameFlag: string, prefix: Str, suffix: Str, name: Str)
    requires UNDERSCORE !in prefix && UNDERSCORE !in suffix
    ensures Encode(serviceId, nameFlag, prefix + [UNDERSCORE] + suffix, name) ==
              match Base64.Decode(suffix)
              case None => Encoded([], [], Some(DecodeFailure(suffix)))
              case Some(decoded) => Encoded(prefix + [UNDERSCORE] + suffix, decoded, None)
  {
    var id := prefix + [UNDERSCORE] + suffix;
    SplitPrefix(prefix, suffix, UNDERSCORE);
    SplitFree(suffix, UNDERSCORE);
    assert Split(id, UNDERSCORE) == [prefix, suffix];
  }

  /** Without an id, a name yields `<service id>_<base64(name)>` and is kept;
      without a service id it fails instead. */
  lemma EncodeName(serviceId: Str, nameFlag: string, name: Str)
    requires name != []
    ensures Encode(serviceId, nameFlag, [], name) ==
              if serviceId == [] then Encoded([], [], Some(MissingService(nameFlag)))
              else Encoded(serviceId + [UNDERSCORE] + Base64.Encode(name), name, None)
  {
  }

  /** With neither an id nor a name there is nothing to derive. */
  lemma EncodeNothing(serviceId: Str, nameFlag: string)
    ensures Encode(serviceId, nameFlag, [], []) == Encoded([], [], None)
  {
  }

  /** Round trip: an id built from a name under a `_`-free service id is
      accepted when given back, and yields the original name. */
  lemma RoundTrip(serviceId: Str, nameFlag: string, name: Str, otherService: Str, otherFlag: string, otherName: Str)
    requires serviceId != [] && UNDERSCORE !in serviceId && name != []
    ensures Encode(serviceId, nameFlag, [], name).err.None?
    ensures var id := Encode(serviceId, nameFlag, [], name).id;
            Encode(otherService, otherFlag, id, otherName) == Encoded(id, name, None)
  {
    var encoded := Base64.Encode(name);
    Base64.EncodeHasNoSeparators(name);
    Base64.DecodeEncode(name);
    EncodeWellFormedId(otherService, otherFlag, serviceId, encoded, otherName);
  }

  /** The round trip needs the service id to be free of `_`: otherwise the
      id built from a name has more than two parts and is rejected. */
  lemma {:induction false} RoundTripNeedsPlainServiceId(serviceId: Str, nameFlag: string, name: Str, otherService: Str, otherFlag: string, otherName: Str)
    requires UNDERSCORE in serviceId && name != []
    ensures Encode(serviceId, nameFlag, [], name).err.None?
    ensures var id := Encode(serviceId, nameFlag, [], name).id;
            Encode(otherService, otherFlag, id, otherName).err == Some(BadFormat(id))
  {
    var encoded := Base64.Encode(name);
    var id := serviceId + [UNDERSCORE] + encoded;
    Base64.EncodeHasNoSeparators(name);
    CountAppend(serviceId + [UNDERSCORE], encoded, UNDERSCORE);
    CountAppend(serviceId, [UNDERSCORE], UNDERSCORE);
    CountAbsent(serviceId, UNDERSCORE);
    CountAbsent(encoded, UNDERSCORE);
    assert Count(id, UNDERSCORE) >= 2;
    EncodeSeparatorCount(otherService, otherFlag, id, otherName);
  }
}
