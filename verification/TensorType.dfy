/** Tensor element types, their names and their sizes. */
module TensorType {
  import opened Prelude

  /** A tensor info; `dims` is the contents of its dimensions array. */
  datatype TensorInfo = TensorInfo(type_: Type, size: int, name: Option<string>, dims: seq<int>)

  datatype Type =
    INT8 | INT16 | INT32 | INT64 | UINT8 | UINT16 | UINT32 | UINT64 | FLOAT16 | FLOAT32 | UNSUPPORTED

  function ToString(t: Type): string {
    match t
    case INT8 => "int8"
    case INT16 => "int16"
    case INT32 => "int32"
    case INT64 => "int64"
    case UINT8 => "uint8"
    case UINT16 => "uint16"
    case UINT32 => "uint32"
    case UINT64 => "uint64"
    case FLOAT16 => "float16"
    case FLOAT32 => "float32"
    case UNSUPPORTED => "error"
  }

  function FromString(s: string): Type {
    if s == "int8" then INT8
    else if s == "int16" then INT16
    else if s == "int32" then INT32
    else if s == "int64" then INT64
    else if s == "uint8" then UINT8
    else if s == "uint16" then UINT16
    else if s == "uint32" then UINT32
    else if s == "float16" then FLOAT16
    else if s == "float32" then FLOAT32
    else UNSUPPORTED
  }

  function Size(t: Type): nat {
    match t
    case INT8 | UINT8 => 1
    case INT16 | UINT16 | FLOAT16 => 2
    case INT32 | UINT32 | FLOAT32 => 4
    case INT64 | UINT64 => 8
    case UNSUPPORTED => 0
  }

  /** The name of a type is read back as that type, except for uint64, which no name is read as. */
  lemma NameRoundTrip(t: Type, s: string)
    ensures FromString(ToString(t)) == t <==> !t.UINT64?
    ensures FromString(ToString(UINT64)) == UNSUPPORTED
    ensures FromString(s) == t && !t.UNSUPPORTED? ==> s == ToString(t)
    ensures FromString(s) != UINT64
  {
  }

  /** A type is named after its kind and its size in bits. */
  lemma NameTellsSize(t: Type)
    ensures t.UNSUPPORTED? <==> Size(t) == 0
    ensures ToString(UNSUPPORTED) == "error"
    ensures !t.UNSUPPORTED? ==>
              var kind := if t.INT8? || t.INT16? || t.INT32? || t.INT64? then "int"
                          else if t.UINT8? || t.UINT16? || t.UINT32? || t.UINT64? then "uint"
                          else "float";
              var bits := if 8 * Size(t) == 8 then "8" else if 8 * Size(t) == 16 then "16"
                          else if 8 * Size(t) == 32 then "32" else "64";
              ToString(t) == kind + bits && Size(t) <= 8
  {
  }

  lemma NamesArePlain(t: Type, c: char)
    requires c == ',' || c == ' ' || c == '=' || c == ':'
    ensures c !in ToString(t)
  {
  }
}
