/**
 JSON as the generated code sees it through jx: a flat stream of tokens. Objects and arrays
 are bracketed, every object member is a key token followed by one value (sections 4 and 5
 of RFC 8259). The tree `Json` is the independent reading of a stream: `Parse` and `Print`
 are inverse to each other, in front of any further tokens.
 */
module JsonTokens {
  import opened Wrappers

  datatype Atom = Str(text: string) | Num(n: int) | Frac(spelling: string) | Bool(b: bool) | Null

  datatype Token = ObjStart | ObjEnd | ArrStart | ArrEnd | Key(name: string) | Lit(atom: Atom)

  datatype Json = Leaf(atom: Atom) | Arr(elems: seq<Json>) | Obj(members: seq<Member>)

  datatype Member = Member(key: string, value: Json)

  /** One JSON value off the front of a stream, together with what follows it. */
  function Parse(ts: seq<Token>): (r: Option<(Json, seq<Token>)>)
    ensures r.Some? ==> |r.value.1| < |ts|
    decreases |ts|, 0
  {
    if ts == [] then None
    else match ts[0]
      case Lit(a) => Some((Leaf(a), ts[1..]))
      case ArrStart =>
        (match ParseElems(ts[1..])
         case None => None
         case Some((es, rest)) => Some((Arr(es), rest)))
      case ObjStart =>
        (match ParseMembers(ts[1..])
         case None => None
         case Some((ms, rest)) => Some((Obj(ms), rest)))
      case _ => None
  }

  /** The elements of an array up to and including its closing bracket. */
  function ParseElems(ts: seq<Token>): (r: Option<(seq<Json>, seq<Token>)>)
    ensures r.Some? ==> |r.value.1| < |ts|
    decreases |ts|, 1
  {
    if ts == [] then None
    else if ts[0].ArrEnd? then Some(([], ts[1..]))
    else match Parse(ts)
      case None => None
      case Some((j, after)) =>
        match ParseElems(after)
        case None => None
        case Some((js, rest)) => Some(([j] + js, rest))
  }

  /** The members of an object up to and including its closing brace. */
  function ParseMembers(ts: seq<Token>): (r: Option<(seq<Member>, seq<Token>)>)
    ensures r.Some? ==> |r.value.1| < |ts|
    decreases |ts|, 1
  {
    if ts == [] then None
    else match ts[0]
      case ObjEnd => Some(([], ts[1..]))
      case Key(k) =>
        (match Parse(ts[1..])
         case None => None
         case Some((j, after)) =>
           match ParseMembers(after)
           case None => None
           case Some((ms, rest)) => Some(([Member(k, j)] + ms, rest)))
      case _ => None
  }

  function Print(j: Json): seq<Token>
    decreases j, 1
  {
    match j
    case Leaf(a) => [Lit(a)]
    case Arr(es) => [ArrStart] + PrintElems(es) + [ArrEnd]
    case Obj(ms) => [ObjStart] + PrintMembers(ms) + [ObjEnd]
  }

  function PrintElems(js: seq<Json>): seq<Token>
    decreases js, 0
  {
    if js == [] then [] else Print(js[0]) + PrintElems(js[1..])
  }

  function PrintMembers(ms: seq<Member>): seq<Token>
    decreases ms, 0
  {
    if ms == [] then [] else [Key(ms[0].key)] + Print(ms[0].value) + PrintMembers(ms[1..])
  }

  /** A stream fragment that is exactly one JSON value. */
  predicate IsOneValue(ts: seq<Token>) {
    var r := Parse(ts);
    r.Some? && r.value.1 == []
  }

  /** Reading what was printed gives the tree back and leaves exactly what followed it. */
  lemma {:induction false} ParsePrint(j: Json, rest: seq<Token>)
    ensures Parse(Print(j) + rest) == Some((j, rest))
    decreases j, 1
  {
    var ts := Print(j) + rest;
    match j {
      case Leaf(a) =>
      case Arr(es) =>
        assert ts[1..] == PrintElems(es) + ([ArrEnd] + rest);
        ParsePrintElems(es, rest);
      case Obj(ms) =>
        assert ts[1..] == PrintMembers(ms) + ([ObjEnd] + rest);
        ParsePrintMembers(ms, rest);
    }
  }

  lemma {:induction false} ParsePrintElems(js: seq<Json>, rest: seq<Token>)
    ensures ParseElems(PrintElems(js) + ([ArrEnd] + rest)) == Some((js, rest))
    decreases js, 0
  {
    var tail := [ArrEnd] + rest;
    if js == [] {
      assert PrintElems(js) + tail == tail;
    } else {
      var after := PrintElems(js[1..]) + tail;
      assert PrintElems(js) + tail == Print(js[0]) + after;
      ParsePrint(js[0], after);
      ParsePrintElems(js[1..], rest);
      PrintStart(js[0], after);
      assert [js[0]] + js[1..] == js;
    }
  }

  lemma {:induction false} ParsePrintMembers(ms: seq<Member>, rest: seq<Token>)
    ensures ParseMembers(PrintMembers(ms) + ([ObjEnd] + rest)) == Some((ms, rest))
    decreases ms, 0
  {
    var tail := [ObjEnd] + rest;
    if ms == [] {
      assert PrintMembers(ms) + tail == tail;
    } else {
      var after := PrintMembers(ms[1..]) + tail;
      var ts := PrintMembers(ms) + tail;
      assert ts == [Key(ms[0].key)] + (Print(ms[0].value) + after);
      assert ts[1..] == Print(ms[0].value) + after;
      ParsePrint(ms[0].value, after);
      ParsePrintMembers(ms[1..], rest);
      assert [Member(ms[0].key, ms[0].value)] + ms[1..] == ms;
    }
  }

  /** A printed value starts with a token that opens a value, never with a closing bracket. */
  lemma PrintStart(j: Json, after: seq<Token>)
    ensures |Print(j)| > 0 && (Print(j) + after)[0] == Print(j)[0]
    ensures !Print(j)[0].ArrEnd? && !Print(j)[0].ObjEnd? && !Print(j)[0].Key?
    ensures Print(j)[0] == Lit(Null) <==> j == Leaf(Null)
  {
  }

  /** Conversely, what was read off a stream is exactly what printing would put there. */
  lemma {:induction false} PrintParse(ts: seq<Token>)
    requires Parse(ts).Some?
    ensures ts == Print(Parse(ts).value.0) + Parse(ts).value.1
    decreases |ts|, 0
  {
    match ts[0] {
      case Lit(a) =>
      case ArrStart =>
        PrintParseElems(ts[1..]);
      case ObjStart =>
        PrintParseMembers(ts[1..]);
    }
  }

  lemma {:induction false} PrintParseElems(ts: seq<Token>)
    requires ParseElems(ts).Some?
    ensures ts == PrintElems(ParseElems(ts).value.0) + [ArrEnd] + ParseElems(ts).value.1
    decreases |ts|, 1
  {
    if !ts[0].ArrEnd? {
      PrintParse(ts);
      var (j, after) := Parse(ts).value;
      PrintParseElems(after);
      var (js, rest) := ParseElems(after).value;
      assert ([j] + js)[1..] == js;
    }
  }

  lemma PrintMembersCons(m: Member, ms: seq<Member>, rest: seq<Token>)
    ensures PrintMembers([m] + ms) + [ObjEnd] + rest
         == [Key(m.key)] + (Print(m.value) + (PrintMembers(ms) + [ObjEnd] + rest))
  {
    assert ([m] + ms)[1..] == ms;
  }

  lemma {:induction false} PrintParseMembers(ts: seq<Token>)
    requires ParseMembers(ts).Some?
    ensures ts == PrintMembers(ParseMembers(ts).value.0) + [ObjEnd] + ParseMembers(ts).value.1
    decreases |ts|, 1
  {
    if ts[0].Key? {
      PrintParse(ts[1..]);
      var (j, after) := Parse(ts[1..]).value;
      PrintParseMembers(after);
      var (ms, rest) := ParseMembers(after).value;
      PrintMembersCons(Member(ts[0].name, j), ms, rest);
      assert ts == [ts[0]] + ts[1..];
    }
  }
}
