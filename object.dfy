/** The value word of the runtime: a 16-bit tag in bits 48 and up and a
    48-bit payload below it, packed into one `u64`. */
module Objects {
  datatype ObjectTag = Int | Float | Pointer

  /** `ObjectTag::from` yields a tag or panics. */
  datatype TagOutcome = Tagged(tag: ObjectTag) | Panic(reason: string)

  /** The low 48 bits. */
  const PayloadMask: bv64 := 0x0000_FFFF_FFFF_FFFF

  /** `object_tag as u64`: the tag's declaration index. */
  function TagCode(t: ObjectTag): (n: bv16)
    ensures n <= 2
  {
    match t
    case Int => 0
    case Float => 1
    case Pointer => 2
  }

  /** `ObjectTag::from`: codes 0, 1 and 2 name the three tags; any other code panics. */
  function TagFrom(v: bv16): (r: TagOutcome)
    ensures r.Tagged? <==> v <= 2
    ensures r.Panic? ==> r.reason == "Invalid object tag"
  {
    if v == 0 then Tagged(Int)
    else if v == 1 then Tagged(Float)
    else if v == 2 then Tagged(Pointer)
    else Panic("Invalid object tag")
  }

  /** `Object(u64)`. */
  datatype Object = Object(word: bv64)

  /** `Object::new`: the tag code shifted to bit 48, or-ed with the payload
      masked to 48 bits. */
  function New(value: bv64, t: ObjectTag): (o: Object)
    ensures o.word >> 48 == TagCode(t) as bv64
    ensures o.word & PayloadMask == value & PayloadMask
  {
    Object(((TagCode(t) as bv64) << 48) | (value & PayloadMask))
  }

  /** `encode`: the raw word. */
  function Encode(o: Object): (w: bv64)
    ensures Object(w) == o
  {
    o.word
  }

  /** `value`: the low 48 bits. */
  function Value(o: Object): (v: bv64)
    ensures v <= PayloadMask
    ensures v == o.word & PayloadMask
  {
    o.word & PayloadMask
  }

  /** `tag`: bits 48 to 63 read as a tag code; a code above 2 panics. */
  function Tag(o: Object): (r: TagOutcome)
    ensures r.Tagged? <==> o.word >> 48 <= 2
  {
    TagFrom(((o.word >> 48) & 0xFFFF) as bv16)
  }

  /** The payload of a new object is the given value cut to 48 bits. */
  lemma ValueOfNew(value: bv64, t: ObjectTag)
    ensures Value(New(value, t)) == value & PayloadMask
    ensures value <= PayloadMask ==> Value(New(value, t)) == value
  {
  }

  /** The tag of a new object is the given tag. */
  lemma TagOfNew(value: bv64, t: ObjectTag)
    ensures Tag(New(value, t)) == Tagged(t)
  {
    var o := New(value, t);
    assert ((o.word >> 48) & 0xFFFF) as bv16 == TagCode(t);
  }

  /** Taking an object built by `new` apart and building it again gives the same word. */
  lemma NewOfParts(value: bv64, t: ObjectTag)
    ensures var o := New(value, t); Tag(o).Tagged? && New(Value(o), Tag(o).tag) == o
  {
    TagOfNew(value, t);
  }

  /** Two objects built by `new` are equal exactly when their tags and their
      48-bit payloads are. */
  lemma NewInjective(v1: bv64, t1: ObjectTag, v2: bv64, t2: ObjectTag)
    ensures New(v1, t1) == New(v2, t2) <==> t1 == t2 && v1 & PayloadMask == v2 & PayloadMask
  {
    if New(v1, t1) == New(v2, t2) {
      TagOfNew(v1, t1);
      TagOfNew(v2, t2);
    }
  }
}
