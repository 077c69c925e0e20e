# Instance id / instance name resolution

A model, in Dafny, of the service-instance resolvers of a command-line
client (`internal/commands/interceptor/instance.go`). A user names a
service instance either by an opaque instance id or by a readable instance
name. The resolvers derive whichever is missing and write both back into
the command's flag context. An instance id has the form
`<service id>_<base64(instance name)>`, with the standard padded base64
alphabet of section 4 of RFC 4648.

Files and modules:

- `go_strings.dfy` (`GoStrings`): Go strings as byte sequences. Go's
  `strings.Split` with a one-byte separator keeps empty fields, and the
  empty string gives one empty field. `strings.Join` is modelled too.
  Both round trips between them are proved.
- `base64.dfy` (`Base64`): a standard padded base64 encoder and a partial
  decoder. The round trip `Decode(Encode(b)) == Some(b)` is proved, and so
  is the fact that encoded text never holds `_` or `,`.
- `errors.dfy` (`Errors`): one error constructor per kind of failure.
- `wrappers.dfy` (`Wrappers`): `Option`.
- `flag_context.dfy` (`FlagContext`): the flag context as a class
  `Context`. It holds a field `values: map<string, Str>` and the set
  `writable` of flags whose `Set` succeeds. `String` reads a flag, giving
  the empty string when the flag has no value. `Set` writes a flag or
  fails, and a failed `Set` changes nothing.
- `instance_codec.dfy` (`InstanceCodec`): `encode`, as the pure function
  `Encode`, with its three branches and its lemmas.
- `instance.dfy` (`Instance`): the flag-name constants; `parseInstance` as
  the method `ResolvePair`; `parseInstanceList` as `ResolveList` plus the
  indexed loop `EncodeAll` over two preallocated arrays; and the exported
  `ParseInstance`, `ParseInstanceList` and `ParseInstanceRelation`. Each
  method's postcondition equates the error and the new flag values with a
  function of the old flag values (`PairOutcome`, `ListOutcome`,
  `InstanceOutcome`, `InstanceListOutcome`, `RelationOutcome`), and the
  properties are proved about those functions.
- `instance_examples.dfy` (`InstanceExamples`): worked cases on concrete
  flag values.

Modelling choices:

- Flag names are Dafny strings. Flag values are Go strings, that is,
  `seq<Byte>`.
- `ParseService` is defined outside this file. It is a parameter of type
  `ServiceStep`: a function from `required` and the flag values to an
  optional error and new flag values. So it may fail, and it may write any
  flag. The flag names `serviceIDFlagName` and `destServiceIDFlagName` are
  also defined elsewhere; the model takes them to be `service-id` and
  `dest-service-id`.
- `b64enc` is defined elsewhere too. It is taken to be standard base64
  encoding (`Base64.Encode`).
- `encode` keeps Go's three results (id, name, error). Every error path
  returns two empty strings, and `Encode`'s contract says so.
- `ParseInstanceRelation` resolves the service, then calls
  `ParseInstance`, which resolves the service a second time, and then
  resolves the destination pair. The model keeps both service calls.
- In `parseInstanceList` the guard `idsArg != "" && len(ids) != 0` is kept
  as written. `len(ids) != 0` always holds, because `Split` never returns
  an empty slice. `ListSize`'s contract states the simpler rule that
  results.
- When the id write of a resolver succeeds and the name write fails, the
  id write stays in place. The code has no rollback, and neither does the
  model: `PairOutcome`'s contract and `ListWriteRejected` state it.

## Model

| member | source | states |
|---|---|---|
| GoStrings.Split | internal/commands/interceptor/instance.go:114-115 | a split has one more field than the string has separators, and no field holds the separator; the empty string gives one empty field |
| GoStrings.Join | internal/commands/interceptor/instance.go:143-144 | no parts give the empty string; one or more separator-free parts give a string with exactly one separator fewer than parts |
| GoStrings.JoinSplit | internal/commands/interceptor/instance.go:143-144 | joining the fields of a split with the same separator gives back the original string |
| GoStrings.SplitJoin | internal/commands/interceptor/instance.go:143-144 | splitting a join of one or more separator-free parts gives back exactly those parts |
| GoStrings.SplitTwo | internal/commands/interceptor/instance.go:154-155 | a string that splits into exactly two fields is the first field, the separator, then the second field |
| Base64.Encode | internal/commands/interceptor/instance.go:167 | the encoding is 4 characters per started group of 3 bytes, every one from the standard alphabet or `=` |
| Base64.DecodeEncode | internal/commands/interceptor/instance.go:158-167 | decoding an encoding succeeds and gives back exactly the original bytes |
| Base64.Decode | internal/commands/interceptor/instance.go:158 | only input whose length is a multiple of 4 decodes |
| Base64.EncodeHasNoSeparators | internal/commands/interceptor/instance.go:167 | encoded text holds neither `_` nor `,` |
| InstanceCodec.Encode | internal/commands/interceptor/instance.go:152-170 | on error both outputs are empty; on success a given id comes back unchanged, and with no id the name comes back unchanged; the output id is empty exactly when neither id nor name was given |
| InstanceCodec.EncodeSeparatorCount | internal/commands/interceptor/instance.go:153-156 | a given id is rejected as malformed if and only if it does not hold exactly one `_`; if it does, it is the part before, `_` and the part after |
| InstanceCodec.EncodeWellFormedId | internal/commands/interceptor/instance.go:153-162 | for an id `p_q` with `_`-free parts, the name is the base64 decoding of `q` and the id is kept; if `q` does not decode, the error is a decode failure and both outputs are empty; the service id and any given name play no part |
| InstanceCodec.EncodeName | internal/commands/interceptor/instance.go:163-168 | with no id, a name and no service id is an error; a name and a service id give `serviceId + "_" + base64(name)`, with the name unchanged |
| InstanceCodec.EncodeNothing | internal/commands/interceptor/instance.go:169 | with neither id nor name the result is two empty strings and no error |
| InstanceCodec.RoundTrip | internal/commands/interceptor/instance.go:153-167 | an id built from a name under a non-empty `_`-free service id is accepted when given back, and it yields the original name |
| InstanceCodec.RoundTripNeedsPlainServiceId | internal/commands/interceptor/instance.go:154-167 | if the service id holds `_`, the id built from a name is rejected as malformed when given back |
| FlagContext.Assign | internal/commands/interceptor/instance.go:94-97 | a write succeeds exactly for a writable flag, then the flag holds the value; a refused write changes nothing and names the flag; no other flag changes |
| FlagContext.Context.Set | internal/commands/interceptor/instance.go:94-97 | the context's values and the error are those of `Assign` on the old values |
| FlagContext.Context.String | internal/commands/interceptor/instance.go:78-80 | reading a flag gives its value, or the empty string when it has none |
| Instance.PairOutcome | internal/commands/interceptor/instance.go:76-99 | both flags empty: an error naming both if required, otherwise nothing happens; a failing encode returns its error and writes nothing; on success both flags were writable and hold the derived id and name; a refused id write returns `WriteRejected` of the id flag and writes nothing; a refused name write returns `WriteRejected` of the name flag and keeps the id write; no other flag changes |
| Instance.PairWritesBack | internal/commands/interceptor/instance.go:89-97 | when encode succeeds and both flags accept writes, the resolution succeeds and writes the derived id, then the derived name |
| Instance.ResolvePair | internal/commands/interceptor/instance.go:76-99 | the error and the new flag values are those of `PairOutcome` on the old ones |
| Instance.PairResolvedConsistent | internal/commands/interceptor/instance.go:89-97 | after a successful resolution of a given pair, giving back the stored id yields the stored name, whatever service id or name it comes with |
| Instance.PairIdempotent | internal/commands/interceptor/instance.go:76-99 | resolving an already resolved pair succeeds and changes nothing (separate flags, `_`-free service id) |
| Instance.ListSize | internal/commands/interceptor/instance.go:116-121 | the working length is the number of comma-separated entries of the id list when it is non-empty, otherwise that of the name list |
| Instance.EncodeLists | internal/commands/interceptor/instance.go:114-121 | a loop over the split lists that succeeds gives as many ids and as many names as the working length |
| Instance.Loop | internal/commands/interceptor/instance.go:122-141 | a loop that succeeds over `n` positions gives `n` ids and `n` names |
| Instance.LoopOk | internal/commands/interceptor/instance.go:124-141 | the loop succeeds if and only if every step succeeds, and then entry `i` of each output is the id and name of step `i` |
| Instance.EncodeListOk | internal/commands/interceptor/instance.go:124-141 | the loop succeeds if and only if every position encodes, and then entry `i` of each output is what `encode` gives for the `i`-th entries, a missing entry counting as empty |
| Instance.EncodeListEntries | internal/commands/interceptor/instance.go:124-141 | a loop that succeeds yields the sequence of ids and the sequence of names that `encode` gives position by position |
| Instance.LoopErrPersists | internal/commands/interceptor/instance.go:134-136 | once a position fails, the later positions do not change the outcome |
| Instance.LoopFirstError | internal/commands/interceptor/instance.go:134-136 | the loop fails with the error of the first position that fails |
| Instance.LoopAgrees | internal/commands/interceptor/instance.go:124-141 | two loops whose steps agree on the first `n` positions give the same result over `n` positions |
| Instance.EncodeListIgnoresLaterEntries | internal/commands/interceptor/instance.go:124-132 | entries past the working length, names as well as ids, have no effect |
| Instance.EncodeAll | internal/commands/interceptor/instance.go:122-141 | the indexed loop over the two preallocated slices returns exactly what `EncodeList` gives |
| Instance.ListOutcome | internal/commands/interceptor/instance.go:101-150 | both list flags empty: an error naming both if required, otherwise nothing happens; a failing position returns its error before any write; no flag other than the two list flags changes |
| Instance.ResolveList | internal/commands/interceptor/instance.go:101-150 | the error and the new flag values are those of `ListOutcome` on the old ones |
| Instance.ListWritesBack | internal/commands/interceptor/instance.go:143-148 | a successful loop with two writable list flags writes the comma-join of the ids and of the names and reports no error |
| Instance.ListWriteRejected | internal/commands/interceptor/instance.go:145-148 | after a successful loop, a refused id-list write returns `WriteRejected` of that flag and writes nothing; a refused name-list write returns `WriteRejected` of that flag and keeps the id-list write |
| Instance.ListResolved | internal/commands/interceptor/instance.go:114-148 | on success each list flag holds the comma-join over the working length of what `encode` gives at each position |
| Instance.InstanceOutcome | internal/commands/interceptor/instance.go:40-47 | a failing service step is the result unchanged; otherwise the result is the instance pair resolved on the values the service step left |
| Instance.InstanceListOutcome | internal/commands/interceptor/instance.go:52-59 | a failing service step is the result unchanged; otherwise the result is the instance lists resolved on the values the service step left |
| Instance.RelationOutcome | internal/commands/interceptor/instance.go:64-74 | the first failing step's error and values are the result, unchanged, with no rollback; success needs every step to succeed; the destination step, failing or not, keeps the resolved primary instance flags |
| Instance.RunService | internal/commands/interceptor/instance.go:42 | the context afterwards and the error are those the service step gives |
| Instance.ParseInstance | internal/commands/interceptor/instance.go:40-47 | the error and the new flag values are those of `InstanceOutcome` |
| Instance.ParseInstanceList | internal/commands/interceptor/instance.go:52-59 | the error and the new flag values are those of `InstanceListOutcome` |
| Instance.ParseInstanceRelation | internal/commands/interceptor/instance.go:64-74 | the error and the new flag values are those of `RelationOutcome` |
| InstanceExamples.MalformedIdRejected | internal/commands/interceptor/instance.go:153-156 | a non-empty id without `_` is rejected as malformed, with both outputs empty |
| InstanceExamples.TwoIds | internal/commands/interceptor/instance.go:114-148 | two well-formed ids and no names resolve to the two decoded names, in order, and the id list stays as it was |
| InstanceExamples.ListOfIds | internal/commands/interceptor/instance.go:114-148 | ids `a_QQ==,b_Qg==` and no names resolve to the names `A,B` |
| InstanceExamples.TwoNames | internal/commands/interceptor/instance.go:114-148 | two comma-free names under a service id and no ids resolve to the two built ids, in order |
| InstanceExamples.ListOfNames | internal/commands/interceptor/instance.go:114-148 | names `X,Y` under service id `svc` resolve to the ids `svc_WA==,svc_WQ==` |

## Left out

- The urfave/cli framework: flag registration, flag types, and why a `Set`
  fails. The model only knows which flags accept writes.
- `ParseService`, `serviceIDFlagName`, `destServiceIDFlagName` and `b64enc`
  are not part of this model. They are defined outside
  `instance.go`: the service step is an opaque parameter, the two flag
  names are assumed constants, and `b64enc` is taken to be standard
  base64 encoding.
- The text of the error messages: each error is a constructor that keeps
  what the message names (the flags, the id, the undecodable part).
- Base64.Decode: Go's decoder also skips `\r` and `\n` in its input; the
  model does not. Like Go's non-strict decoder, the model ignores the
  unused low bits of the last character, so it is not proved that
  decoding is injective.
- The closure-returning style (`func(*cli.Context) error`): each resolver
  is a method that takes the context directly.
- Go's conversions between `string` and `[]byte` are identities on bytes
  here, with no UTF-8 handling.
