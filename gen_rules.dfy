/** The generator's per-kind tables: the buffer writer valMarshal and
    keyMarshal emit, the parser call the *Unmarshal helpers emit, the Go
    type names, the emptiness test of generateEmpty and the reset of
    typeDestructor. Where the Go generator panics the table gives
    `Crashed` with the panic's message. */
module GenRules {
  import opened Options
  import opened Schema

  /** What a generator step produces, or the message of the panic that
      aborts the whole run. */
  datatype Gen<T> = Emitted(value: T) | Crashed(message: string)

  /** The buffer method valMarshal and keyMarshal emit a call to. */
  datatype Writer =
    | WriteBool | WriteEnumName
    | WriteInt32 | WriteUint32 | WriteInt64 | WriteUint64
    | WriteFloat32 | WriteFloat64
    | WriteQuoted | WriteBase64 | WriteNested

  /** The parser method valUnmarshal (and its list and map variants)
      emits a call to. */
  datatype Reader =
    | ReadBool | ReadEnum
    | ReadInt32 | ReadUint32 | ReadInt64 | ReadUint64
    | ReadFloat32 | ReadFloat64
    | ReadStr | ReadBytes | ReadNested

  /** The body of a generated IsEmpty<Field> method. */
  datatype EmptyTest = NilTest | FalseTest | ZeroOrdinalTest | ZeroTest | EmptyStringTest | NoReturn

  /** What typeDestructor emits for a singular field. */
  datatype ResetAction = SetFalse | EnumSetZero | SetZero | SetEmptyString | SetNil | DestructThenNil | NoAction

  /** valMarshal: None where it emits nothing (group). */
  function ValWriter(k: Kind): Option<Writer> {
    match k
    case BoolKind => Some(WriteBool)
    case EnumKind => Some(WriteEnumName)
    case Int32Kind | Sint32Kind => Some(WriteInt32)
    case Uint32Kind | Fixed32Kind => Some(WriteUint32)
    case Int64Kind | Sint64Kind => Some(WriteInt64)
    case Uint64Kind | Fixed64Kind => Some(WriteUint64)
    case Sfixed32Kind | FloatKind => Some(WriteFloat32)
    case Sfixed64Kind | DoubleKind => Some(WriteFloat64)
    case StringKind => Some(WriteQuoted)
    case BytesKind => Some(WriteBase64)
    case MessageKind => Some(WriteNested)
    case GroupKind => None
  }

  /** keyMarshal: the writer for the key (None: nothing is written before
      the ':' that always follows). */
  function KeyWriter(k: Kind): Option<Writer> {
    match k
    case StringKind => Some(WriteQuoted)
    case Int32Kind | Sint32Kind => Some(WriteInt32)
    case Uint32Kind | Fixed32Kind => Some(WriteUint32)
    case Int64Kind | Sint64Kind => Some(WriteInt64)
    case Uint64Kind | Fixed64Kind => Some(WriteUint64)
    case _ => None
  }

  /** valUnmarshal, listValUnmarshal, mapValUnmarshal: None where they
      emit nothing (group). */
  function ValReader(k: Kind): Option<Reader> {
    match k
    case BoolKind => Some(ReadBool)
    case EnumKind => Some(ReadEnum)
    case Int32Kind | Sint32Kind => Some(ReadInt32)
    case Uint32Kind | Fixed32Kind => Some(ReadUint32)
    case Int64Kind | Sint64Kind => Some(ReadInt64)
    case Uint64Kind | Fixed64Kind => Some(ReadUint64)
    case Sfixed32Kind | FloatKind => Some(ReadFloat32)
    case Sfixed64Kind | DoubleKind => Some(ReadFloat64)
    case StringKind => Some(ReadStr)
    case BytesKind => Some(ReadBytes)
    case MessageKind => Some(ReadNested)
    case GroupKind => None
  }

  /** typeName: the Go type of a field's values; a message type is a
      pointer when needStar. */
  function TypeName(k: Kind, ref: TypeRef, needStar: bool): Gen<string> {
    match k
    case BoolKind => Emitted("bool")
    case EnumKind => Emitted(ref.goName)
    case Int32Kind | Sint32Kind => Emitted("int32")
    case Uint32Kind | Fixed32Kind => Emitted("uint32")
    case Int64Kind | Sint64Kind => Emitted("int64")
    case Uint64Kind | Fixed64Kind => Emitted("uint64")
    case Sfixed32Kind | FloatKind => Emitted("float32")
    case Sfixed64Kind | DoubleKind => Emitted("float64")
    case StringKind => Emitted("string")
    case BytesKind => Emitted("[]byte")
    case MessageKind => Emitted(if needStar then "*" + ref.goName else ref.goName)
    case GroupKind => Crashed("unknown type")
  }

  /** mapKeyTypeName */
  function MapKeyTypeName(k: Kind): Gen<string> {
    match k
    case Int32Kind | Sint32Kind => Emitted("int32")
    case Uint32Kind | Fixed32Kind => Emitted("uint32")
    case Int64Kind | Sint64Kind => Emitted("int64")
    case Uint64Kind | Fixed64Kind => Emitted("uint64")
    case StringKind => Emitted("string")
    case _ => Crashed("unknown type")
  }

  /** mapValTypeName: like typeName, but an enum or message value type is
      looked up by full name in the generator's indexes, and a type
      missing from them aborts the run. */
  function MapValTypeName(k: Kind, ref: TypeRef, needStar: bool,
                          messages: map<string, Message>, enums: map<string, EnumType>): Gen<string> {
    match k
    case EnumKind =>
      if ref.fullName in enums then Emitted(enums[ref.fullName].goName)
      else Crashed("unknown type:" + ref.fullName)
    case MessageKind =>
      if ref.fullName in messages then
        Emitted(if needStar then "*" + messages[ref.fullName].goName else messages[ref.fullName].goName)
      else Crashed("unknown type:" + ref.fullName)
    case _ => TypeName(k, ref, needStar)
  }

  /** generateEmpty's test for a field outside every oneof. */
  function EmptyTestOf(f: Field): EmptyTest {
    if f.card.List? || f.card.Map? then NilTest
    else match f.kind
      case BoolKind => FalseTest
      case EnumKind => ZeroOrdinalTest
      case StringKind => EmptyStringTest
      case BytesKind | MessageKind => NilTest
      case GroupKind => NoReturn
      case _ => ZeroTest
  }

  /** typeDestructor */
  function ResetOf(k: Kind): ResetAction {
    match k
    case BoolKind => SetFalse
    case EnumKind => EnumSetZero
    case StringKind => SetEmptyString
    case BytesKind => SetNil
    case MessageKind => DestructThenNil
    case GroupKind => NoAction
    case _ => SetZero
  }

  // ---------------------------------------------------------------
  // Independent statements of what the tables are for
  // ---------------------------------------------------------------

  /** The kinds protobuf allows as map keys: the integral kinds, bool and
      string (floating point, bytes, enum and message are excluded). */
  predicate ProtoKeyKind(k: Kind) {
    k in {BoolKind, Int32Kind, Sint32Kind, Uint32Kind, Fixed32Kind, Int64Kind, Sint64Kind,
          Uint64Kind, Fixed64Kind, Sfixed32Kind, Sfixed64Kind, StringKind}
  }

  /** The kinds whose values are numbers: what generateEmpty compares with 0
      and typeDestructor sets to 0. */
  predicate NumericKind(k: Kind) {
    k in {Int32Kind, Sint32Kind, Uint32Kind, Fixed32Kind, Int64Kind, Sint64Kind,
          Uint64Kind, Fixed64Kind, Sfixed32Kind, FloatKind, Sfixed64Kind, DoubleKind}
  }

  /** The reader that reads back what a writer writes. */
  function ReaderFor(w: Writer): Reader {
    match w
    case WriteBool => ReadBool
    case WriteEnumName => ReadEnum
    case WriteInt32 => ReadInt32
    case WriteUint32 => ReadUint32
    case WriteInt64 => ReadInt64
    case WriteUint64 => ReadUint64
    case WriteFloat32 => ReadFloat32
    case WriteFloat64 => ReadFloat64
    case WriteQuoted => ReadStr
    case WriteBase64 => ReadBytes
    case WriteNested => ReadNested
  }

  /** The Go type of the value a buffer writer takes. */
  function WriterGoType(w: Writer): string {
    match w
    case WriteBool => "bool"
    case WriteInt32 => "int32"
    case WriteUint32 => "uint32"
    case WriteInt64 => "int64"
    case WriteUint64 => "uint64"
    case WriteFloat32 => "float32"
    case WriteFloat64 => "float64"
    case WriteQuoted => "string"
    case WriteBase64 => "[]byte"
    case WriteEnumName => "enum"
    case WriteNested => "message"
  }

  /** Marshal and Unmarshal agree: every kind is read back with the reader
      that matches the writer it is written with, and exactly group gets
      neither. */
  lemma ReaderMatchesWriter(k: Kind)
    ensures ValWriter(k).Some? <==> ValReader(k).Some?
    ensures ValWriter(k).Some? ==> ValReader(k) == Some(ReaderFor(ValWriter(k).value))
    ensures ValWriter(k).None? <==> k == GroupKind
  {
  }

  /** A map key is written exactly as a value of its kind would be, and
      keyMarshal and mapKeyTypeName accept the same kinds. */
  lemma KeyWriterAgrees(k: Kind)
    ensures KeyWriter(k).Some? <==> MapKeyTypeName(k).Emitted?
    ensures KeyWriter(k).Some? ==> KeyWriter(k) == ValWriter(k)
  {
  }

  /** mapKeyTypeName rejects three kinds protobuf allows as map keys: bool,
      sfixed32 and sfixed64; every other key kind it accepts. */
  lemma KeyKindsRejected(k: Kind)
    ensures MapKeyTypeName(k).Emitted? ==> ProtoKeyKind(k)
    ensures ProtoKeyKind(k) && MapKeyTypeName(k).Crashed? <==> k in {BoolKind, Sfixed32Kind, Sfixed64Kind}
  {
  }

  /** typeName aborts exactly on group; for every scalar kind the Go type
      it names is the type the kind's buffer writer takes, so sfixed32 and
      sfixed64 are handled as float32 and float64 throughout. */
  lemma TypeNameMatchesWriter(k: Kind, ref: TypeRef, needStar: bool)
    ensures TypeName(k, ref, needStar).Crashed? <==> k == GroupKind
    ensures k !in {EnumKind, MessageKind, GroupKind} ==>
      TypeName(k, ref, needStar) == Emitted(WriterGoType(ValWriter(k).value))
    ensures TypeName(Sfixed32Kind, ref, needStar) == Emitted("float32")
    ensures TypeName(Sfixed64Kind, ref, needStar) == Emitted("float64")
  {
  }

  /** mapValTypeName agrees with typeName except that enum and message
      types come from the indexes, and a type not indexed aborts. */
  lemma MapValTypeNameAgrees(k: Kind, ref: TypeRef, needStar: bool,
                             messages: map<string, Message>, enums: map<string, EnumType>)
    ensures k !in {EnumKind, MessageKind} ==>
      MapValTypeName(k, ref, needStar, messages, enums) == TypeName(k, ref, needStar)
    ensures k == EnumKind ==>
      (MapValTypeName(k, ref, needStar, messages, enums).Emitted? <==> ref.fullName in enums)
    ensures k == MessageKind ==>
      (MapValTypeName(k, ref, needStar, messages, enums).Emitted? <==> ref.fullName in messages)
    ensures k == MessageKind && ref.fullName in messages && messages[ref.fullName].goName == ref.goName ==>
      MapValTypeName(k, ref, needStar, messages, enums) == TypeName(k, ref, needStar)
  {
  }

  /** The emptiness test and the destructor's reset go together: numbers
      are compared with and reset to 0, bool with false, strings with "",
      bytes and messages with nil; enums are compared by ordinal and reset
      through Set(0); groups get neither. */
  lemma EmptyMatchesReset(f: Field)
    requires f.card.Singular?
    ensures NumericKind(f.kind) <==> EmptyTestOf(f) == ZeroTest
    ensures NumericKind(f.kind) <==> ResetOf(f.kind) == SetZero
    ensures EmptyTestOf(f) == FalseTest <==> ResetOf(f.kind) == SetFalse
    ensures EmptyTestOf(f) == EmptyStringTest <==> ResetOf(f.kind) == SetEmptyString
    ensures EmptyTestOf(f) == ZeroOrdinalTest <==> ResetOf(f.kind) == EnumSetZero
    ensures EmptyTestOf(f) == NilTest <==> ResetOf(f.kind) in {SetNil, DestructThenNil}
    ensures EmptyTestOf(f) == NoReturn <==> ResetOf(f.kind) == NoAction
  {
  }
}
