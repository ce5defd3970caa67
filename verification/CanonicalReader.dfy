/** Reading a canonical token stream back, token by token. */
module CanonicalReader {
  import opened Common
  import opened Canonical

  /** A value at the head of the stream, and the tokens after it. */
  function ReadValue(ts: seq<Token>): (r: Option<(Json, seq<Token>)>)
    ensures r.Some? ==> |r.value.1| < |ts|
    decreases |ts|, 0
  {
    if ts == [] then None
    else match ts[0]
      case StartObject =>
        (match ReadMembers(ts[1..]) case None => None case Some((ms, rest)) => Some((Object(ms), rest)))
      case StartArray =>
        (match ReadItems(ts[1..]) case None => None case Some((xs, rest)) => Some((Array(xs), rest)))
      case Raw(raw) => Some((Scalar(raw), ts[1..]))
      case _ => None
  }

  /** Members up to the end of their object. */
  function ReadMembers(ts: seq<Token>): (r: Option<(seq<Member>, seq<Token>)>)
    ensures r.Some? ==> |r.value.1| < |ts|
    decreases |ts|, 1
  {
    if ts == [] then None
    else match ts[0]
      case EndObject => Some(([], ts[1..]))
      case Name(name) =>
        (match ReadValue(ts[1..])
         case None => None
         case Some((value, rest)) =>
           match ReadMembers(rest)
           case None => None
           case Some((ms, end)) => Some(([Member(name, value)] + ms, end)))
      case _ => None
  }

  /** Items up to the end of their array. */
  function ReadItems(ts: seq<Token>): (r: Option<(seq<Json>, seq<Token>)>)
    ensures r.Some? ==> |r.value.1| < |ts|
    decreases |ts|, 1
  {
    if ts == [] then None
    else if ts[0] == EndArray then Some(([], ts[1..]))
    else match ReadValue(ts)
      case None => None
      case Some((value, rest)) =>
        match ReadItems(rest)
        case None => None
        case Some((xs, end)) => Some(([value] + xs, end))
  }

  /** A whole stream. */
  function Read(ts: seq<Token>): Option<Json> {
    match ReadValue(ts)
    case Some((e, rest)) => if rest == [] then Some(e) else None
    case None => None
  }

  // ----- What is printed is read back

  lemma PrintSplits(e: Json, x: seq<Token>)
    ensures var ts := Print(e) + x;
      match e
      case Object(ms) => ts == [StartObject] + (PrintMembers(ms) + ([EndObject] + x))
      case Array(xs) => ts == [StartArray] + (PrintItems(xs) + ([EndArray] + x))
      case Scalar(raw) => ts == [Raw(raw)] + x
  {
    hide PrintMembers, PrintItems;
  }

  lemma Head<T>(a: T, x: seq<T>)
    ensures [a] + x != [] && ([a] + x)[0] == a && ([a] + x)[1..] == x
  {
  }

  lemma {:induction false} PrintIsRead(e: Json, x: seq<Token>)
    ensures ReadValue(Print(e) + x) == Some((e, x))
    decreases e, 2
  {
    hide Print, PrintMembers, PrintItems, ReadMembers, ReadItems;
    PrintSplits(e, x);
    match e
    case Object(ms) =>
      Head(StartObject, PrintMembers(ms) + ([EndObject] + x));
      MembersAreRead(ms, x);
    case Array(xs) =>
      Head(StartArray, PrintItems(xs) + ([EndArray] + x));
      ItemsAreRead(xs, x);
    case Scalar(raw) => Head(Raw(raw), x);
  }

  lemma MembersSplit(ms: seq<Member>, z: seq<Token>)
    ensures PrintMembers(ms) + z ==
      if ms == [] then z else [Name(ms[0].name)] + (Print(ms[0].value) + (PrintMembers(ms[1..]) + z))
  {
    hide Print;
  }

  lemma {:induction false} MembersAreRead(ms: seq<Member>, x: seq<Token>)
    ensures ReadMembers(PrintMembers(ms) + ([EndObject] + x)) == Some((ms, x))
    decreases ms, 1
  {
    hide Print, PrintMembers, ReadValue;
    MembersSplit(ms, [EndObject] + x);
    if ms == [] {
      Head(EndObject, x);
    } else {
      var rest := PrintMembers(ms[1..]) + ([EndObject] + x);
      Head(Name(ms[0].name), Print(ms[0].value) + rest);
      PrintIsRead(ms[0].value, rest);
      MembersAreRead(ms[1..], x);
      assert ms == [Member(ms[0].name, ms[0].value)] + ms[1..];
    }
  }

  lemma ItemsSplit(xs: seq<Json>, z: seq<Token>)
    ensures PrintItems(xs) + z == if xs == [] then z else Print(xs[0]) + (PrintItems(xs[1..]) + z)
  {
    hide Print;
  }

  lemma PrintStarts(e: Json, x: seq<Token>)
    ensures Print(e) + x != [] && (Print(e) + x)[0] != EndArray
  {
    hide PrintMembers, PrintItems;
  }

  lemma {:induction false} ItemsAreRead(xs: seq<Json>, x: seq<Token>)
    ensures ReadItems(PrintItems(xs) + ([EndArray] + x)) == Some((xs, x))
    decreases xs, 1
  {
    hide Print, PrintItems, ReadValue;
    ItemsSplit(xs, [EndArray] + x);
    if xs == [] {
      Head(EndArray, x);
    } else {
      var rest := PrintItems(xs[1..]) + ([EndArray] + x);
      PrintStarts(xs[0], rest);
      PrintIsRead(xs[0], rest);
      ItemsAreRead(xs[1..], x);
      assert xs == [xs[0]] + xs[1..];
    }
  }

  // ----- What is read was printed

  lemma {:induction false} ReadWasPrinted(ts: seq<Token>)
    ensures ReadValue(ts).Some? ==> var (e, rest) := ReadValue(ts).value; ts == Print(e) + rest
    decreases |ts|, 0
  {
    hide Print, PrintMembers, PrintItems, ReadMembers, ReadItems;
    if ReadValue(ts).Some? {
      var (e, rest) := ReadValue(ts).value;
      PrintSplits(e, rest);
      assert ts == [ts[0]] + ts[1..];
      if e.Object? { MembersWerePrinted(ts[1..]); }
      if e.Array? { ItemsWerePrinted(ts[1..]); }
    }
  }

  lemma {:induction false} MembersWerePrinted(ts: seq<Token>)
    ensures ReadMembers(ts).Some? ==>
      var (ms, rest) := ReadMembers(ts).value; ts == PrintMembers(ms) + ([EndObject] + rest)
    decreases |ts|, 1
  {
    hide Print, PrintMembers, ReadValue;
    if ReadMembers(ts).Some? {
      var (ms, rest) := ReadMembers(ts).value;
      MembersSplit(ms, [EndObject] + rest);
      assert ts == [ts[0]] + ts[1..];
      if ms != [] {
        ReadWasPrinted(ts[1..]);
        var (_, more) := ReadValue(ts[1..]).value;
        MembersWerePrinted(more);
        assert ms[1..] == ReadMembers(more).value.0;
      }
    }
  }

  lemma {:induction false} ItemsWerePrinted(ts: seq<Token>)
    ensures ReadItems(ts).Some? ==>
      var (xs, rest) := ReadItems(ts).value; ts == PrintItems(xs) + ([EndArray] + rest)
    decreases |ts|, 1
  {
    hide Print, PrintItems, ReadValue;
    if ReadItems(ts).Some? {
      var (xs, rest) := ReadItems(ts).value;
      ItemsSplit(xs, [EndArray] + rest);
      if xs == [] {
        assert ts == [ts[0]] + ts[1..];
      } else {
        ReadWasPrinted(ts);
        var (_, more) := ReadValue(ts).value;
        ItemsWerePrinted(more);
        assert xs[1..] == ReadItems(more).value.0;
      }
    }
  }

  /** Reading and printing are inverse: each stream is the text of at most one document, the one it reads as. */
  lemma ReadInvertsPrint(ts: seq<Token>, e: Json)
    ensures Read(ts) == Some(e) <==> ts == Print(e)
  {
    hide ReadValue, Print;
    PrintIsRead(e, []);
    ReadWasPrinted(ts);
    assert Print(e) + [] == Print(e);
  }
}
