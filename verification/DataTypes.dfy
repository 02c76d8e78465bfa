/** The Sparkplug B datatype codes (src/datatype.rs). */
module DataTypes {
  import opened Base

  datatype DataType =
    | Unknown | Int8 | Int16 | Int32 | Int64 | UInt8 | UInt16 | UInt32 | UInt64
    | Float | Double | Boolean | String | DateTime | Text
    | Uuid | DataSet | Bytes | File | Template
    | PropertySet | PropertySetList
    | Int8Array | Int16Array | Int32Array | Int64Array
    | UInt8Array | UInt16Array | UInt32Array | UInt64Array
    | FloatArray | DoubleArray | BooleanArray | StringArray | DateTimeArray
  {
    function Code(): u32 {
      match this
      case Unknown => 0 case Int8 => 1 case Int16 => 2 case Int32 => 3 case Int64 => 4
      case UInt8 => 5 case UInt16 => 6 case UInt32 => 7 case UInt64 => 8
      case Float => 9 case Double => 10 case Boolean => 11 case String => 12
      case DateTime => 13 case Text => 14 case Uuid => 15 case DataSet => 16
      case Bytes => 17 case File => 18 case Template => 19
      case PropertySet => 20 case PropertySetList => 21
      case Int8Array => 22 case Int16Array => 23 case Int32Array => 24 case Int64Array => 25
      case UInt8Array => 26 case UInt16Array => 27 case UInt32Array => 28 case UInt64Array => 29
      case FloatArray => 30 case DoubleArray => 31 case BooleanArray => 32
      case StringArray => 33 case DateTimeArray => 34
    }

    /** The basic scalar types: valid for columns, parameters and property values. */
    predicate IsBasic() { 1 <= Code() <= 14 }

    predicate IsArray() { 22 <= Code() <= 34 }

    /** Bytes per element of a numeric or temporal array. */
    function ElementWidth(): Option<nat> {
      match this
      case Int8Array | UInt8Array => Some(1)
      case Int16Array | UInt16Array => Some(2)
      case Int32Array | UInt32Array | FloatArray => Some(4)
      case Int64Array | UInt64Array | DoubleArray | DateTimeArray => Some(8)
      case _ => None
    }
  }

  function FromCode(c: u32): Result<DataType> {
    match c
    case 0 => Ok(Unknown) case 1 => Ok(Int8) case 2 => Ok(Int16) case 3 => Ok(Int32)
    case 4 => Ok(Int64) case 5 => Ok(UInt8) case 6 => Ok(UInt16) case 7 => Ok(UInt32)
    case 8 => Ok(UInt64) case 9 => Ok(Float) case 10 => Ok(Double) case 11 => Ok(Boolean)
    case 12 => Ok(String) case 13 => Ok(DateTime) case 14 => Ok(Text) case 15 => Ok(Uuid)
    case 16 => Ok(DataSet) case 17 => Ok(Bytes) case 18 => Ok(File) case 19 => Ok(Template)
    case 20 => Ok(PropertySet) case 21 => Ok(PropertySetList)
    case 22 => Ok(Int8Array) case 23 => Ok(Int16Array) case 24 => Ok(Int32Array)
    case 25 => Ok(Int64Array) case 26 => Ok(UInt8Array) case 27 => Ok(UInt16Array)
    case 28 => Ok(UInt32Array) case 29 => Ok(UInt64Array) case 30 => Ok(FloatArray)
    case 31 => Ok(DoubleArray) case 32 => Ok(BooleanArray) case 33 => Ok(StringArray)
    case 34 => Ok(DateTimeArray)
    case other => Err(UnknownDataType(other))
  }

  /** The codes by name (section 6.4.16 of Sparkplug 3.0.0): first the basic types. */
  lemma BasicCodes(dt: DataType)
    ensures dt.Code() == 0 <==> dt == Unknown
    ensures dt.Code() == 1 <==> dt == Int8
    ensures dt.Code() == 2 <==> dt == Int16
    ensures dt.Code() == 3 <==> dt == Int32
    ensures dt.Code() == 4 <==> dt == Int64
    ensures dt.Code() == 5 <==> dt == UInt8
    ensures dt.Code() == 6 <==> dt == UInt16
    ensures dt.Code() == 7 <==> dt == UInt32
    ensures dt.Code() == 8 <==> dt == UInt64
    ensures dt.Code() == 9 <==> dt == Float
    ensures dt.Code() == 10 <==> dt == Double
    ensures dt.Code() == 11 <==> dt == Boolean
    ensures dt.Code() == 12 <==> dt == String
    ensures dt.Code() == 13 <==> dt == DateTime
    ensures dt.Code() == 14 <==> dt == Text
  {
  }

  /** Then the structured types. */
  lemma StructuredCodes(dt: DataType)
    ensures dt.Code() == 15 <==> dt == Uuid
    ensures dt.Code() == 16 <==> dt == DataSet
    ensures dt.Code() == 17 <==> dt == Bytes
    ensures dt.Code() == 18 <==> dt == File
    ensures dt.Code() == 19 <==> dt == Template
    ensures dt.Code() == 20 <==> dt == PropertySet
    ensures dt.Code() == 21 <==> dt == PropertySetList
  {
  }

  /** Then the arrays. */
  lemma ArrayCodes(dt: DataType)
    ensures dt.Code() == 22 <==> dt == Int8Array
    ensures dt.Code() == 23 <==> dt == Int16Array
    ensures dt.Code() == 24 <==> dt == Int32Array
    ensures dt.Code() == 25 <==> dt == Int64Array
    ensures dt.Code() == 26 <==> dt == UInt8Array
    ensures dt.Code() == 27 <==> dt == UInt16Array
    ensures dt.Code() == 28 <==> dt == UInt32Array
    ensures dt.Code() == 29 <==> dt == UInt64Array
    ensures dt.Code() == 30 <==> dt == FloatArray
    ensures dt.Code() == 31 <==> dt == DoubleArray
    ensures dt.Code() == 32 <==> dt == BooleanArray
    ensures dt.Code() == 33 <==> dt == StringArray
    ensures dt.Code() == 34 <==> dt == DateTimeArray
  {
  }

  /** Every datatype is read back from its code. */
  lemma CodeRoundTrip(dt: DataType)
    ensures FromCode(dt.Code()) == Ok(dt)
  {
  }

  /** The codes 0 to 34 are accepted and no other. */
  lemma CodeOf(c: u32)
    ensures match FromCode(c)
            case Ok(dt) => c <= 34 && dt.Code() == c
            case Err(e) => c > 34 && e == UnknownDataType(c)
  {
  }
}
