/** The part of a protobuf descriptor the generator reads, as plain
    values: the kinds of protoreflect, fields with their cardinality and
    oneof membership, oneofs, messages with their nested messages and
    enums, and the enums' name and number tables. */
module Schema {
  import opened Bytes

  /** The eighteen field kinds of protoreflect.Kind. */
  datatype Kind =
    | BoolKind | EnumKind
    | Int32Kind | Sint32Kind | Uint32Kind | Fixed32Kind
    | Int64Kind | Sint64Kind | Uint64Kind | Fixed64Kind
    | Sfixed32Kind | FloatKind | Sfixed64Kind | DoubleKind
    | StringKind | BytesKind | MessageKind | GroupKind

  /** The enum or message type a field (or a map value) refers to: its
      full protobuf name and the name of its Go type. */
  datatype TypeRef = TypeRef(fullName: string, goName: string)

  /** A field is singular, repeated, or a map with its key and value kinds
      (a map value of enum or message kind refers to valRef). */
  datatype Card = Singular | List | Map(key: Kind, val: Kind, valRef: TypeRef)

  /** jsonName is written into the JSON text, goName names the Go struct
      field, ident is the Go type wrapping the field when it belongs to a
      oneof, ref the enum or message type of an enum or message field. */
  datatype Field = Field(
    jsonName: Bytes,
    goName: string,
    kind: Kind,
    card: Card,
    ref: TypeRef,
    inOneof: bool,
    ident: string)

  datatype Oneof = Oneof(goName: string, fields: seq<Field>)

  /** names maps each number to its name (the generated `_name` table),
      values each name to its number (`_value`). */
  datatype EnumType = EnumType(
    fullName: string,
    goName: string,
    names: map<int, Bytes>,
    values: map<Bytes, int>)

  /** fields lists every field, those of oneofs included, as the
      descriptor does; isMapEntry marks the entry message protobuf
      synthesises for a map field. */
  datatype Message = Message(
    fullName: string,
    goName: string,
    fields: seq<Field>,
    oneofs: seq<Oneof>,
    messages: seq<Message>,
    enums: seq<EnumType>,
    isMapEntry: bool)

  datatype File = File(messages: seq<Message>, enums: seq<EnumType>)

  /** The fields outside every oneof, in declaration order. */
  function PlainFields(fs: seq<Field>): seq<Field> {
    if fs == [] then []
    else
      var f := fs[|fs| - 1];
      PlainFields(fs[..|fs| - 1]) + (if f.inOneof then [] else [f])
  }

  /** One more field extends the plain fields of a prefix. */
  lemma PlainStep(fs: seq<Field>, i: nat)
    requires i < |fs|
    ensures fs[i].inOneof ==> PlainFields(fs[..i + 1]) == PlainFields(fs[..i])
    ensures !fs[i].inOneof ==> PlainFields(fs[..i + 1]) == PlainFields(fs[..i]) + [fs[i]]
  {
    assert fs[..i + 1][..i] == fs[..i];
    assert PlainFields(fs[..i]) + [] == PlainFields(fs[..i]);
  }

  /** The plain fields are exactly the fields outside every oneof. */
  lemma {:induction false} PlainFieldsMembers(fs: seq<Field>)
    ensures |PlainFields(fs)| <= |fs|
    ensures forall f :: f in PlainFields(fs) <==> f in fs && !f.inOneof
  {
    if fs != [] {
      var f := fs[|fs| - 1];
      assert fs == fs[..|fs| - 1] + [f];
      PlainFieldsMembers(fs[..|fs| - 1]);
    }
  }
}
