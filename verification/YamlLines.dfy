/** What the pairing pass reads as the key of a line: optional indent, optional list dash, a name, a colon. */
module YamlLines {
  import opened Common
  import opened ChangePairing

  predicate AllSpace(s: string) { forall i | 0 <= i < |s| :: IsSpace(s[i]) }

  /** A letter or underscore, then letters, digits, underscores, dots or hyphens. */
  predicate IsName(s: string) { s != [] && IsNameStart(s[0]) && forall i | 0 <= i < |s| :: IsNamePart(s[i]) }

  /** A hyphen and at least one space, or nothing. */
  predicate IsDash(s: string, dash: bool) { if dash then |s| > 1 && s[0] == '-' && AllSpace(s[1..]) else s == [] }

  /** The line is these parts in this order. */
  ghost predicate Reads(line: string, k: Key, indent: string, dash: string, gap: string, rest: string) {
    && line == indent + (dash + (k.name + (gap + ([':'] + rest))))
    && AllSpace(indent) && |indent| == k.indent && IsDash(dash, k.dash) && IsName(k.name) && AllSpace(gap)
  }

  // ----- Longest prefixes

  lemma Concat(p: string, q: string)
    ensures p == [] ==> p + q == q
    ensures p != [] ==> p + q != [] && (p + q)[0] == p[0] && (p + q)[1..] == p[1..] + q
    ensures (p + q)[|p|..] == q && (p + q)[..|p|] == p
  {
  }

  lemma {:induction false} SpacesOf(p: string, q: string)
    requires AllSpace(p) && (q != [] ==> !IsSpace(q[0]))
    ensures Spaces(p + q) == |p| && (p + q)[|p|..] == q
  {
    hide IsSpace;
    Concat(p, q);
    if p != [] {
      assert IsSpace(p[0]);
      SpacesOf(p[1..], q);
    }
  }

  lemma {:induction false} NameOf(p: string, q: string)
    requires (forall i | 0 <= i < |p| :: IsNamePart(p[i])) && (q != [] ==> !IsNamePart(q[0]))
    ensures NameLength(p + q) == |p| && (p + q)[|p|..] == q && (p + q)[..|p|] == p
  {
    hide IsNamePart;
    Concat(p, q);
    if p != [] {
      assert IsNamePart(p[0]);
      NameOf(p[1..], q);
    }
  }

  lemma {:induction false} SpacesFacts(s: string)
    ensures AllSpace(s[..Spaces(s)]) && (Spaces(s) < |s| ==> !IsSpace(s[Spaces(s)]))
  {
    hide IsSpace;
    if s != [] && IsSpace(s[0]) {
      SpacesFacts(s[1..]);
      forall i | 0 <= i < Spaces(s) ensures IsSpace(s[i]) {
        if i > 0 { assert s[i] == s[1..][..Spaces(s[1..])][i - 1]; }
      }
    }
  }

  lemma {:induction false} NameFacts(s: string)
    ensures forall i | 0 <= i < NameLength(s) :: IsNamePart(s[i])
  {
    hide IsNamePart;
    if s != [] && IsNamePart(s[0]) {
      NameFacts(s[1..]);
      forall i | 0 <= i < NameLength(s) ensures IsNamePart(s[i]) {
        if i > 0 { assert s[i] == s[1..][i - 1]; }
      }
    }
  }

  // ----- A line, one part at a time

  /** The key of what follows the indent and the dash. */
  function NameIn(item: string, indent: nat, dash: bool): Option<Key> {
    var len := NameLength(item);
    var rest := item[len..][Spaces(item[len..])..];
    if item != [] && IsNameStart(item[0]) && rest != [] && rest[0] == ':'
    then Some(Key(indent, dash, item[..len])) else None
  }

  /** The key of what follows the indent. */
  function ItemKey(body: string, indent: nat): Option<Key> {
    if |body| > 1 && body[0] == '-' && IsSpace(body[1]) then NameIn(body[1..][Spaces(body[1..])..], indent, true)
    else NameIn(body, indent, false)
  }

  lemma KeyByParts(line: string)
    ensures YamlKey(line) == ItemKey(line[Spaces(line)..], Spaces(line))
  {
    hide IsSpace, IsNamePart, IsNameStart, Spaces, NameLength;
  }

  lemma DashedItem(dash: string, item: string, indent: nat)
    requires IsDash(dash, true) && item != [] && !IsSpace(item[0])
    ensures ItemKey(dash + item, indent) == NameIn(item, indent, true)
  {
    hide IsSpace, NameIn, Spaces;
    Concat(dash, item);
    Concat(dash[1..], item);
    SpacesOf(dash[1..], item);
    assert (dash + item)[1] == dash[1..][0];
  }

  lemma CharsDiffer(c: char)
    ensures IsNameStart(c) ==> IsNamePart(c)
    ensures IsNamePart(c) ==> !IsSpace(c) && c != ':'
    ensures c == ':' || c == '-' ==> !IsSpace(c) && !IsNameStart(c)
  {
  }

  lemma NameInParts(name: string, gap: string, rest: string, indent: nat, dash: bool)
    requires IsName(name) && AllSpace(gap)
    ensures NameIn(name + (gap + ([':'] + rest)), indent, dash) == Some(Key(indent, dash, name))
  {
    hide IsSpace, IsNamePart, IsNameStart;
    var tail := gap + ([':'] + rest);
    CharsDiffer(':');
    CharsDiffer(tail[0]);
    NameOf(name, tail);
    SpacesOf(gap, [':'] + rest);
    hide Spaces, NameLength;
    assert (name + tail)[0] == name[0];
  }

  lemma ItemStarts(name: string, gap: string, rest: string)
    requires IsName(name)
    ensures var item := name + (gap + ([':'] + rest)); item != [] && item[0] != '-' && !IsSpace(item[0])
  {
    hide IsSpace, IsNamePart, IsNameStart;
    Concat(name, gap + ([':'] + rest));
    CharsDiffer(name[0]);
    CharsDiffer('-');
  }

  lemma PartsAreRead(line: string, k: Key, indent: string, dash: string, gap: string, rest: string)
    requires Reads(line, k, indent, dash, gap, rest)
    ensures YamlKey(line) == Some(k)
  {
    hide IsSpace, IsName, Spaces, NameIn, YamlKey;
    var item := k.name + (gap + ([':'] + rest));
    ItemStarts(k.name, gap, rest);
    CharsDiffer('-');
    Concat(dash, item);
    SpacesOf(indent, dash + item);
    KeyByParts(line);
    NameInParts(k.name, gap, rest, k.indent, k.dash);
    if k.dash {
      hide ItemKey;
      DashedItem(dash, item, k.indent);
    }
  }

  /** The parts of an item with a name. */
  lemma NameInReads(item: string, indent: nat, dash: bool) returns (gap: string, rest: string)
    requires NameIn(item, indent, dash).Some?
    ensures var k := NameIn(item, indent, dash).value;
      && k.indent == indent && k.dash == dash && IsName(k.name) && AllSpace(gap)
      && item == k.name + (gap + ([':'] + rest))
  {
    hide IsSpace, IsNamePart, IsNameStart, Spaces, NameLength;
    var len := NameLength(item);
    var tail := item[len..];
    NameFacts(item);
    SpacesFacts(tail);
    gap, rest := tail[..Spaces(tail)], tail[Spaces(tail) + 1..];
    StartIsInName(item);
    assert tail == gap + ([tail[Spaces(tail)]] + rest);
    assert tail[Spaces(tail)..][0] == tail[Spaces(tail)];
  }

  lemma StartIsInName(item: string)
    ensures item != [] && IsNameStart(item[0]) ==> NameLength(item) > 0
  {
  }

  lemma DashIsRead(body: string, indent: nat) returns (dash: string, item: string)
    requires |body| > 1 && body[0] == '-' && IsSpace(body[1])
    ensures IsDash(dash, true) && body == dash + item && ItemKey(body, indent) == NameIn(item, indent, true)
  {
    hide IsSpace, NameIn, Spaces;
    var tail := body[1..];
    SpacesFacts(tail);
    FirstSpace(tail);
    dash, item := ['-'] + tail[..Spaces(tail)], tail[Spaces(tail)..];
    assert dash[1..] == tail[..Spaces(tail)];
    assert body == dash + item;
  }

  lemma ReadGivesParts(line: string) returns (indent: string, dash: string, gap: string, rest: string)
    requires YamlKey(line).Some?
    ensures Reads(line, YamlKey(line).value, indent, dash, gap, rest)
  {
    hide IsSpace, IsName, Spaces, NameIn, YamlKey, AllSpace;
    KeyByParts(line);
    SpacesFacts(line);
    indent := line[..Spaces(line)];
    var body := line[Spaces(line)..];
    assert line == indent + body;
    if |body| > 1 && body[0] == '-' && IsSpace(body[1]) {
      var item;
      dash, item := DashIsRead(body, Spaces(line));
      gap, rest := NameInReads(item, Spaces(line), true);
    } else {
      gap, rest := NameInReads(body, Spaces(line), false);
      dash := [];
      Concat(dash, body);
    }
  }

  lemma FirstSpace(s: string)
    ensures s != [] && IsSpace(s[0]) ==> Spaces(s) > 0
  {
    hide IsSpace;
  }

  /** A line has a key exactly when it splits into these parts, and then the key is what they say. */
  lemma YamlKeyMeans(line: string, k: Key)
    ensures YamlKey(line) == Some(k) <==> exists indent, dash, gap, rest :: Reads(line, k, indent, dash, gap, rest)
  {
    hide Reads, YamlKey;
    if YamlKey(line) == Some(k) {
      var indent, dash, gap, rest := ReadGivesParts(line);
    }
    if indent, dash, gap, rest :| Reads(line, k, indent, dash, gap, rest) {
      PartsAreRead(line, k, indent, dash, gap, rest);
    }
  }
}
