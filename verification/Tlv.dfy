/** Matter TLV as the codec sees it: elements as trees on the reading side, and the
    sequence of writer calls on the writing side. A value's byte width is the writer's
    business (it narrows to the smallest that fits) and is not part of an element. */
module Tlv {
  import opened Json

  datatype Tag = Anonymous | Context(n: Byte) | Profile(id: nat)

  datatype Elem =
    | NullElem
    | BoolElem(b: bool)
    | Unsigned(u: U64)
    | Signed(i: I64)
    | Utf8(s: string)
    | Octets(bytes: seq<Byte>)
    | Struct(members: seq<Member>)
    | Array(items: seq<Elem>)
    | List(items: seq<Elem>)

  datatype Member = Member(tag: Tag, value: Elem)

  /** One call on the writer. */
  datatype Token =
    | Leaf(tag: Tag, value: Elem)
    | StartStruct(tag: Tag)
    | StartArray(tag: Tag)
    | StartList(tag: Tag)
    | EndContainer

  predicate IsLeaf(e: Elem) { !e.Struct? && !e.Array? && !e.List? }

  /** The writer calls that emit `e` under `tag`. */
  function Tokens(tag: Tag, e: Elem): seq<Token>
    decreases e, 1
  {
    match e
    case Struct(ms) => [StartStruct(tag)] + MemberTokens(ms) + [EndContainer]
    case Array(items) => [StartArray(tag)] + ItemTokens(items) + [EndContainer]
    case List(items) => [StartList(tag)] + ItemTokens(items) + [EndContainer]
    case _ => [Leaf(tag, e)]
  }

  function MemberTokens(ms: seq<Member>): seq<Token>
    decreases ms, 0
  {
    if ms == [] then []
    else
      var m := ms[|ms| - 1];
      assert m.value < m;
      MemberTokens(ms[..|ms| - 1]) + Tokens(m.tag, m.value)
  }

  function ItemTokens(items: seq<Elem>): seq<Token>
    decreases items, 0
  {
    if items == [] then []
    else ItemTokens(items[..|items| - 1]) + Tokens(Anonymous, items[|items| - 1])
  }

  lemma {:induction false} ItemTokensSnoc(items: seq<Elem>, e: Elem)
    ensures ItemTokens(items + [e]) == ItemTokens(items) + Tokens(Anonymous, e)
  {
    assert (items + [e])[..|items|] == items;
  }

  lemma {:induction false} MemberTokensSnoc(ms: seq<Member>, m: Member)
    ensures MemberTokens(ms + [m]) == MemberTokens(ms) + Tokens(m.tag, m.value)
  {
    assert (ms + [m])[..|ms|] == ms;
  }
}
