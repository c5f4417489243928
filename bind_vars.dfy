/** The bind-variable buffer the compiled filter reads: one 16-byte slot per
    bind variable, in declaration order. Word 0 of a slot is zero padding for
    fixed-size types or the byte size of a variable-size value; word 1 is the
    value widened to a `long`, or a pointer to the variable-size data
    (`prepareBindVarMemory` and `writeBindVarFunction`). */
module BindVars {
  import opened JavaTypes
  import opened Results

  /** Bytes per slot: two `long` words. */
  const SLOT_BYTES: int := 16

  /** `Float.floatToRawIntBits(Float.NaN)`, written after a FLOAT value to fill its word. */
  const FLOAT_NAN_BITS: uint32 := 0x7FC0_0000

  /** A UTF-8 value: the address of its bytes (opaque) and its byte size. */
  datatype Utf8View = Utf8View(ptr: int64, size: nat31)

  /** Column type tags; `OtherType` stands for every tag without a bind encoding. */
  datatype TypeTag =
    | Boolean | Byte | GeoByte | Short | GeoShort | Char | Int | IPv4 | GeoInt
    | Symbol | Float | Long | GeoLong | Date | Timestamp | Double | Varchar
    | OtherType(name: string)

  /** A bind-variable function, by its type tag, with the value its getter
      returns. FLOAT and DOUBLE values are their raw bit patterns; a SYMBOL is
      the integer key it resolves to after `init`. */
  datatype BindValue =
    | BooleanBind(b: bool)
    | ByteBind(v8: int8)
    | GeoByteBind(v8: int8)
    | ShortBind(v16: int16)
    | GeoShortBind(v16: int16)
    | CharBind(c: uint16)
    | IntBind(v32: int32)
    | IPv4Bind(v32: int32)
    | GeoIntBind(v32: int32)
    | SymbolBind(v32: int32)
    | FloatBind(floatBits: uint32)
    | LongBind(v64: int64)
    | GeoLongBind(v64: int64)
    | DateBind(v64: int64)
    | TimestampBind(v64: int64)
    | DoubleBind(doubleBits: int64)
    | VarcharBind(utf8: Option<Utf8View>)
    | OtherBind(typeName: string)

  datatype BindError = UnsupportedBindVariableType(position: int, typeName: string)
  {
    function Message(): string
    {
      "unsupported bind variable type: " + typeName
    }
  }

  function TagOf(v: BindValue): TypeTag
  {
    match v
    case BooleanBind(_) => Boolean
    case ByteBind(_) => Byte
    case GeoByteBind(_) => GeoByte
    case ShortBind(_) => Short
    case GeoShortBind(_) => GeoShort
    case CharBind(_) => Char
    case IntBind(_) => Int
    case IPv4Bind(_) => IPv4
    case GeoIntBind(_) => GeoInt
    case SymbolBind(_) => Symbol
    case FloatBind(_) => Float
    case LongBind(_) => Long
    case GeoLongBind(_) => GeoLong
    case DateBind(_) => Date
    case TimestampBind(_) => Timestamp
    case DoubleBind(_) => Double
    case VarcharBind(_) => Varchar
    case OtherBind(name) => OtherType(name)
  }

  function Tags(vs: seq<BindValue>): (tags: seq<TypeTag>)
    ensures |tags| == |vs|
  {
    if vs == [] then [] else Tags(vs[..|vs| - 1]) + [TagOf(vs[|vs| - 1])]
  }

  predicate Supported(v: BindValue)
  {
    !v.OtherBind?
  }

  predicate AllSupported(vs: seq<BindValue>)
  {
    forall i :: 0 <= i < |vs| ==> Supported(vs[i])
  }

  /** The two words a supported bind variable is serialised to. */
  function Slot(v: BindValue): seq<int64>
    requires Supported(v)
  {
    match v
    case BooleanBind(b) => [0, if b then 1 else 0]
    case ByteBind(x) => [0, x]
    case GeoByteBind(x) => [0, x]
    case ShortBind(x) => [0, x]
    case GeoShortBind(x) => [0, x]
    case CharBind(x) => [0, x]
    case IntBind(x) => [0, x]
    case IPv4Bind(x) => [0, x]
    case GeoIntBind(x) => [0, x]
    case SymbolBind(x) => [0, x]
    case FloatBind(bits) => [0, JoinHalves(bits, FLOAT_NAN_BITS)]
    case LongBind(x) => [0, x]
    case GeoLongBind(x) => [0, x]
    case DateBind(x) => [0, x]
    case TimestampBind(x) => [0, x]
    case DoubleBind(bits) => [0, bits]
    case VarcharBind(utf8) =>
      if utf8.None? then [-1, 0] else [utf8.value.size, utf8.value.ptr]
  }

  /** The whole buffer for a list of supported bind variables. */
  function Encode(vs: seq<BindValue>): (words: seq<int64>)
    requires AllSupported(vs)
    ensures |words| == 2 * |vs|
  {
    if vs == [] then [] else Encode(vs[..|vs| - 1]) + Slot(vs[|vs| - 1])
  }

  /** Index of the first bind variable without an encoding. */
  function FirstUnsupported(vs: seq<BindValue>): (k: nat)
    requires !AllSupported(vs)
    ensures k < |vs| && !Supported(vs[k]) && AllSupported(vs[..k])
  {
    if !Supported(vs[0]) then 0
    else
      var k := 1 + FirstUnsupported(vs[1..]);
      assert forall j :: 1 <= j < k ==> vs[..k][j] == vs[1..][..k - 1][j - 1];
      k
  }

  lemma FirstUnsupportedIs(vs: seq<BindValue>, i: nat)
    requires i < |vs| && !Supported(vs[i]) && AllSupported(vs[..i])
    ensures FirstUnsupported(vs) == i
  {
  }

  /** How the compiled filter reads one slot of the given type: the padding
      word of a fixed-size type must be zero, word 1 is narrowed to the type's
      width, a FLOAT is the low half of word 1, and a VARCHAR with size -1 is
      NULL. Words that fit no encoding read as `None`. */
  function DecodeSlot(tag: TypeTag, w0: int64, w1: int64): Option<BindValue>
  {
    match tag
    case Varchar =>
      if w0 == -1 then Some(VarcharBind(None))
      else if 0 <= w0 < 0x8000_0000 then Some(VarcharBind(Some(Utf8View(w1, w0))))
      else None
    case OtherType(_) => None
    case _ =>
      if w0 != 0 then None
      else
        match tag
        case Boolean => if w1 == 0 then Some(BooleanBind(false)) else if w1 == 1 then Some(BooleanBind(true)) else None
        case Byte => Some(ByteBind(NarrowByte(w1)))
        case GeoByte => Some(GeoByteBind(NarrowByte(w1)))
        case Short => Some(ShortBind(NarrowShort(w1)))
        case GeoShort => Some(GeoShortBind(NarrowShort(w1)))
        case Char => Some(CharBind(NarrowChar(w1)))
        case Int => Some(IntBind(NarrowInt(w1)))
        case IPv4 => Some(IPv4Bind(NarrowInt(w1)))
        case GeoInt => Some(GeoIntBind(NarrowInt(w1)))
        case Symbol => Some(SymbolBind(NarrowInt(w1)))
        case Float => Some(FloatBind(LowHalf(w1)))
        case Long => Some(LongBind(w1))
        case GeoLong => Some(GeoLongBind(w1))
        case Date => Some(DateBind(w1))
        case Timestamp => Some(TimestampBind(w1))
        case Double => Some(DoubleBind(w1))
        case _ => None
  }

  /** Reads a whole buffer back, given the declared types. */
  function Decode(tags: seq<TypeTag>, words: seq<int64>): Option<seq<BindValue>>
    requires |words| == 2 * |tags|
  {
    if tags == [] then Some([])
    else
      var n := |words|;
      match (Decode(tags[..|tags| - 1], words[..n - 2]), DecodeSlot(tags[|tags| - 1], words[n - 2], words[n - 1]))
      case (Some(prefix), Some(v)) => Some(prefix + [v])
      case _ => None
  }

  /** Every supported value reads back from its own slot. */
  lemma SlotRoundTrip(v: BindValue)
    requires Supported(v)
    ensures DecodeSlot(TagOf(v), Slot(v)[0], Slot(v)[1]) == Some(v)
  {
  }

  /** A NULL VARCHAR and only a NULL VARCHAR has size word -1. */
  lemma VarcharNullMarker(u: Option<Utf8View>)
    ensures Slot(VarcharBind(u))[0] == -1 <==> u.None?
    ensures u.None? ==> Slot(VarcharBind(u))[1] == 0
  {
  }

  /** Slot i occupies words 2i and 2i+1, that is bytes 16i to 16i+15. */
  lemma {:induction false} EncodeSlotAt(vs: seq<BindValue>, i: nat)
    requires AllSupported(vs) && i < |vs|
    ensures Encode(vs)[2 * i] == Slot(vs[i])[0]
    ensures Encode(vs)[2 * i + 1] == Slot(vs[i])[1]
  {
    var p := vs[..|vs| - 1];
    assert AllSupported(p) by {
      forall j | 0 <= j < |p| ensures Supported(p[j]) {
        assert p[j] == vs[j];
      }
    }
    if i < |vs| - 1 {
      EncodeSlotAt(p, i);
      assert p[i] == vs[i];
    }
  }

  /** Decoding one more slot extends the decoded prefix by its value. */
  lemma DecodeAppend(tags: seq<TypeTag>, t: TypeTag, words: seq<int64>, w0: int64, w1: int64, prefix: seq<BindValue>, v: BindValue)
    requires |words| == 2 * |tags|
    requires Decode(tags, words) == Some(prefix) && DecodeSlot(t, w0, w1) == Some(v)
    ensures Decode(tags + [t], words + [w0, w1]) == Some(prefix + [v])
  {
    var tags', words' := tags + [t], words + [w0, w1];
    assert tags'[..|tags'| - 1] == tags;
    assert words'[..|words'| - 2] == words;
  }

  /** The two words of a slot, and that they decode back to the value. */
  lemma SlotWords(v: BindValue) returns (w0: int64, w1: int64)
    requires Supported(v)
    ensures Slot(v) == [w0, w1] && DecodeSlot(TagOf(v), w0, w1) == Some(v)
  {
    SlotRoundTrip(v);
    w0, w1 := Slot(v)[0], Slot(v)[1];
  }

  lemma EncodeSnoc(p: seq<BindValue>, x: BindValue)
    requires AllSupported(p) && Supported(x)
    ensures AllSupported(p + [x])
    ensures Tags(p + [x]) == Tags(p) + [TagOf(x)]
    ensures Encode(p + [x]) == Encode(p) + Slot(x)
  {
    assert (p + [x])[..|p|] == p;
  }

  lemma {:induction false} EncodeRoundTrip(vs: seq<BindValue>)
    requires AllSupported(vs)
    ensures Decode(Tags(vs), Encode(vs)) == Some(vs)
  {
    if vs != [] {
      var p := vs[..|vs| - 1];
      var x := vs[|vs| - 1];
      assert AllSupported(p) by {
        forall j | 0 <= j < |p| ensures Supported(p[j]) {
          assert p[j] == vs[j];
        }
      }
      assert vs == p + [x];
      EncodeRoundTrip(p);
      EncodeSnoc(p, x);
      var w0, w1 := SlotWords(x);
      DecodeAppend(Tags(p), TagOf(x), Encode(p), w0, w1, p, x);
    }
  }

  /** The native buffer behind `bindVarMemory`. Longs are written at 8-byte
      boundaries; a `float` fills half a word, so two of them complete one. */
  class BindVarMemory {
    /** Whole words from the start of the buffer up to the append offset. */
    var words: seq<int64>
    /** A 4-byte value appended after the last whole word, if any. */
    var pendingHalf: Option<uint32>

    constructor ()
      ensures words == [] && pendingHalf == None
    {
      words := [];
      pendingHalf := None;
    }

    /** Bytes written so far. */
    function AppendOffset(): int
      reads this
    {
      8 * |words| + (if pendingHalf.Some? then 4 else 0)
    }

    method Truncate()
      modifies this
      ensures words == [] && pendingHalf == None
    {
      words := [];
      pendingHalf := None;
    }

    method PutLong(v: int64)
      requires pendingHalf == None
      modifies this
      ensures words == old(words) + [v] && pendingHalf == None
    {
      words := words + [v];
    }

    /** Overwrites the long at byte `offset`, below the append offset. */
    method PutLongAt(offset: int, v: int64)
      requires 0 <= offset && offset % 8 == 0 && offset / 8 < |words|
      modifies this
      ensures words == old(words)[offset / 8 := v] && pendingHalf == old(pendingHalf)
    {
      words := words[offset / 8 := v];
    }

    /** Appends the four bytes of a `float`, given as its raw bits. */
    method PutFloat(bits: uint32)
      modifies this
      ensures old(pendingHalf).None? ==> words == old(words) && pendingHalf == Some(bits)
      ensures old(pendingHalf).Some? ==>
                words == old(words) + [JoinHalves(old(pendingHalf).value, bits)] && pendingHalf == None
    {
      if pendingHalf.None? {
        pendingHalf := Some(bits);
      } else {
        words := words + [JoinHalves(pendingHalf.value, bits)];
        pendingHalf := None;
      }
    }

    /** Appends the eight bytes of a `double`, given as its raw bits. */
    method PutDouble(bits: int64)
      requires pendingHalf == None
      modifies this
      ensures words == old(words) + [bits] && pendingHalf == None
    {
      PutLong(bits);
    }
  }

  /** Appends one slot. For a type without an encoding the padding word has
      already been appended when the error is raised. */
  method WriteBindVarFunction(mem: BindVarMemory, v: BindValue) returns (r: Outcome<BindError>)
    requires mem.pendingHalf == None
    modifies mem
    ensures mem.pendingHalf == None
    ensures Supported(v) ==> r == Pass && mem.words == old(mem.words) + Slot(v)
    ensures !Supported(v) ==>
              r == Fail(UnsupportedBindVariableType(0, v.typeName)) && mem.words == old(mem.words) + [0]
    ensures r.Fail? ==> r.error.Message() == "unsupported bind variable type: " + v.typeName
  {
    r := Pass;
    var appendOffset := mem.AppendOffset();
    mem.PutLong(0);
    match v {
      case BooleanBind(b) => mem.PutLong(if b then 1 else 0);
      case ByteBind(x) => mem.PutLong(x);
      case GeoByteBind(x) => mem.PutLong(x);
      case ShortBind(x) => mem.PutLong(x);
      case GeoShortBind(x) => mem.PutLong(x);
      case CharBind(x) => mem.PutLong(x);
      case IntBind(x) => mem.PutLong(x);
      case IPv4Bind(x) => mem.PutLong(x);
      case GeoIntBind(x) => mem.PutLong(x);
      case SymbolBind(x) => mem.PutLong(x);
      case FloatBind(bits) =>
        mem.PutFloat(bits);
        mem.PutFloat(FLOAT_NAN_BITS);
      case LongBind(x) => mem.PutLong(x);
      case GeoLongBind(x) => mem.PutLong(x);
      case DateBind(x) => mem.PutLong(x);
      case TimestampBind(x) => mem.PutLong(x);
      case DoubleBind(bits) => mem.PutDouble(bits);
      case VarcharBind(utf8) =>
        if utf8.None? {
          mem.PutLong(0);
          mem.PutLongAt(appendOffset, -1);
        } else {
          mem.PutLong(utf8.value.ptr);
          mem.PutLongAt(appendOffset, utf8.value.size);
        }
      case OtherBind(name) =>
        r := Fail(UnsupportedBindVariableType(0, name));
    }
  }

  /** Rebuilds the buffer from scratch when there is at least one bind
      variable, so running it again gives the same contents; with none the
      buffer is left alone. */
  method PrepareBindVarMemory(mem: BindVarMemory, functions: seq<BindValue>) returns (r: Outcome<BindError>)
    requires mem.pendingHalf == None
    modifies mem
    ensures mem.pendingHalf == None
    ensures r.Pass? <==> AllSupported(functions)
    ensures |functions| == 0 ==> mem.words == old(mem.words)
    ensures |functions| > 0 && AllSupported(functions) ==>
              mem.words == Encode(functions) && mem.AppendOffset() == SLOT_BYTES * |functions|
    ensures !AllSupported(functions) ==>
              var k := FirstUnsupported(functions);
              && r == Fail(UnsupportedBindVariableType(0, functions[k].typeName))
              && mem.words == Encode(functions[..k]) + [0]
  {
    r := Pass;
    if |functions| > 0 {
      mem.Truncate();
      var i := 0;
      while i < |functions|
        invariant 0 <= i <= |functions|
        invariant AllSupported(functions[..i])
        invariant mem.words == Encode(functions[..i]) && mem.pendingHalf == None
        invariant r == Pass
      {
        assert functions[..i + 1][..i] == functions[..i];
        r := WriteBindVarFunction(mem, functions[i]);
        if r.Fail? {
          FirstUnsupportedIs(functions, i);
          return;
        }
        i := i + 1;
      }
      assert functions[..|functions|] == functions;
    }
  }
}
