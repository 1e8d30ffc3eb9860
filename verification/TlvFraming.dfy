/** The writer's calls determine the tree: a reader that follows them finds the element
    that was written and stops where it ends. */
module TlvFraming {
  import opened Wrappers
  import opened Tlv

  /** The element at the front of `ts`, with its tag, and the calls after it. */
  function Read(ts: seq<Token>): (r: Option<(Member, seq<Token>)>)
    ensures r.Some? ==> |r.value.1| < |ts|
    decreases |ts|, 1
  {
    if ts == [] then None
    else
      match ts[0]
      case Leaf(tag, e) => Some((Member(tag, e), ts[1..]))
      case StartStruct(tag) => var ms :- ReadMembers(ts[1..], []); Some((Member(tag, Struct(ms.0)), ms.1))
      case StartArray(tag) => var ms :- ReadMembers(ts[1..], []); Some((Member(tag, Array(Values(ms.0))), ms.1))
      case StartList(tag) => var ms :- ReadMembers(ts[1..], []); Some((Member(tag, List(Values(ms.0))), ms.1))
      case EndContainer => None
  }

  /** The members up to the end of the container, after those already `read`. */
  function ReadMembers(ts: seq<Token>, read: seq<Member>): (r: Option<(seq<Member>, seq<Token>)>)
    ensures r.Some? ==> |r.value.1| < |ts|
    decreases |ts|, 0
  {
    if ts == [] then None
    else if ts[0] == EndContainer then Some((read, ts[1..]))
    else if ts[0].Leaf? then ReadMembers(ts[1..], read + [Member(ts[0].tag, ts[0].value)])
    else
      var ms :- ReadMembers(ts[1..], []);
      var e :=
        if ts[0].StartStruct? then Struct(ms.0)
        else if ts[0].StartArray? then Array(Values(ms.0)) else List(Values(ms.0));
      ReadMembers(ms.1, read + [Member(ts[0].tag, e)])
  }

  function Values(ms: seq<Member>): (items: seq<Elem>)
    ensures |items| == |ms|
  {
    if ms == [] then [] else Values(ms[..|ms| - 1]) + [ms[|ms| - 1].value]
  }

  function AsMembers(items: seq<Elem>): (ms: seq<Member>)
    ensures |ms| == |items|
  {
    if items == [] then [] else AsMembers(items[..|items| - 1]) + [Member(Anonymous, items[|items| - 1])]
  }

  lemma {:induction false} ItemsAsMembers(items: seq<Elem>)
    ensures ItemTokens(items) == MemberTokens(AsMembers(items)) && Values(AsMembers(items)) == items
  {
    if items != [] {
      ItemsAsMembers(items[..|items| - 1]);
      var ms := AsMembers(items);
      assert ms[..|ms| - 1] == AsMembers(items[..|items| - 1]);
    }
  }

  /** Reading what was written: the members read so far are followed by `ms`. */
  lemma {:induction false} ReadWrittenMembers(ms: seq<Member>, read: seq<Member>, rest: seq<Token>)
    ensures ReadMembers(MemberTokens(ms) + rest, read) == ReadMembers(rest, read + ms)
    decreases ms, 0
  {
    hide Tokens, ReadMembers;
    if ms == [] {
      assert MemberTokens(ms) + rest == rest && read + ms == read;
    } else {
      var front, m := ms[..|ms| - 1], ms[|ms| - 1];
      assert m.value < m;
      var tail := Tokens(m.tag, m.value) + rest;
      assert MemberTokens(ms) + rest == MemberTokens(front) + tail;
      ReadWrittenMembers(front, read, tail);
      ReadWritten(m.tag, m.value, read + front, rest);
      assert read + front + [m] == read + ms;
    }
  }

  lemma {:induction false} ReadWritten(tag: Tag, e: Elem, read: seq<Member>, rest: seq<Token>)
    ensures ReadMembers(Tokens(tag, e) + rest, read) == ReadMembers(rest, read + [Member(tag, e)])
    decreases e, 1
  {
    hide MemberTokens, ItemTokens, Values, AsMembers;
    var ts := Tokens(tag, e) + rest;
    if IsLeaf(e) {
      assert ts[1..] == rest;
    } else {
      var ms := if e.Struct? then e.members else AsMembers(e.items);
      if !e.Struct? {
        ItemsAsMembers(e.items);
      }
      assert ts[1..] == MemberTokens(ms) + ([EndContainer] + rest);
      ReadBody(e, ms, rest);
    }
  }

  /** The body of a container, up to and including its end. */
  lemma {:induction false} ReadBody(e: Elem, ms: seq<Member>, rest: seq<Token>)
    requires !IsLeaf(e) && ms == if e.Struct? then e.members else AsMembers(e.items)
    ensures ReadMembers(MemberTokens(ms) + ([EndContainer] + rest), []) == Some((ms, rest))
    decreases e, 0
  {
    hide Tokens, MemberTokens, Values;
    var end := [EndContainer] + rest;
    assert end[1..] == rest && [] + ms == ms;
    if e.Struct? {
      ReadWrittenMembers(ms, [], end);
    } else {
      ReadWrittenItems(e.items, [], end);
      ItemsAsMembers(e.items);
    }
  }

  lemma {:induction false} ReadWrittenItems(items: seq<Elem>, read: seq<Member>, rest: seq<Token>)
    ensures ReadMembers(ItemTokens(items) + rest, read) == ReadMembers(rest, read + AsMembers(items))
    decreases items, 0
  {
    hide Tokens, ReadMembers;
    if items == [] {
      assert ItemTokens(items) + rest == rest && read + AsMembers(items) == read;
    } else {
      var front, e := items[..|items| - 1], items[|items| - 1];
      var tail := Tokens(Anonymous, e) + rest;
      assert ItemTokens(items) + rest == ItemTokens(front) + tail;
      ReadWrittenItems(front, read, tail);
      ReadWritten(Anonymous, e, read + AsMembers(front), rest);
      assert read + AsMembers(front) + [Member(Anonymous, e)] == read + AsMembers(items);
    }
  }

  /** Whatever follows, reading the calls that wrote `e` under `tag` gives `e` and `tag`. */
  lemma {:induction false} ReadTokens(tag: Tag, e: Elem, rest: seq<Token>)
    ensures Read(Tokens(tag, e) + rest) == Some((Member(tag, e), rest))
  {
    hide MemberTokens, ItemTokens, AsMembers, Values, ReadMembers;
    var ts := Tokens(tag, e) + rest;
    if IsLeaf(e) {
      assert ts[1..] == rest;
    } else {
      var ms := if e.Struct? then e.members else AsMembers(e.items);
      if !e.Struct? {
        ItemsAsMembers(e.items);
      }
      assert ts[1..] == MemberTokens(ms) + ([EndContainer] + rest);
      ReadBody(e, ms, rest);
    }
  }
}
