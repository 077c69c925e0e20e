/** The errors the resolvers return, one constructor per kind of failure;
    the text of the source's messages is not modelled, only what each
    message names. */
module Errors {
  import opened GoStrings

  datatype Error =
    | MissingFlag(idFlag: string, nameFlag: string)  // neither of two alternative flags was given
    | BadFormat(id: Str)                             // an instance id is not two `_`-separated parts
    | DecodeFailure(encoded: Str)                    // the second part of an id is not base64
    | MissingService(nameFlag: string)               // a name was given but no service id to derive the id
    | WriteRejected(flag: string)                    // the flag context refused to store a value
}
