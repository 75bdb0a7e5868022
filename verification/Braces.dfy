// Shell brace groups in a service's path words (internal/collect/services.go).
module Braces {
  import opened Wrappers

  // ---------------------------------------------------------------- text

  predicate IsFirst(s: string, c: char, i: nat) {
    i < |s| && s[i] == c && forall k :: 0 <= k < i ==> s[k] != c
  }

  lemma {:induction false} FirstExists(s: string, c: char)
    requires c in s
    ensures exists i: nat :: IsFirst(s, c, i)
  {
    if s[0] == c {
      assert IsFirst(s, c, 0);
    } else {
      FirstExists(s[1..], c);
      var i: nat :| IsFirst(s[1..], c, i);
      assert forall k :: 0 <= k < i ==> s[k + 1] == s[1..][k];
      assert IsFirst(s, c, i + 1);
    }
  }

  /** strings.IndexByte. */
  function IndexOf(s: string, c: char): (i: Option<nat>)
    ensures i.None? <==> c !in s
    ensures i.Some? ==> IsFirst(s, c, i.value) && c !in s[..i.value]
  {
    if c !in s then None
    else
      FirstExists(s, c);
      var i: nat :| IsFirst(s, c, i);
      Some(i)
  }

  lemma IndexIs(s: string, c: char, i: nat)
    requires IsFirst(s, c, i)
    ensures IndexOf(s, c) == Some(i)
  {
    assert s[i] in s;
  }

  lemma IndexOfAfter(p: string, s: string, c: char)
    requires c !in p
    ensures IndexOf(p + s, c) == match IndexOf(s, c) case None => None case Some(i) => Some(|p| + i)
  {
    if IndexOf(s, c).Some? {
      var i := IndexOf(s, c).value;
      IndexIs(p + s, c, |p| + i);
    }
  }

  /** strings.Split on one comma. */
  function Split(s: string): (parts: seq<string>)
    ensures |parts| >= 1
  {
    match IndexOf(s, ',')
    case None => [s]
    case Some(i) => [s[..i]] + Split(s[i + 1..])
  }

  predicate Plain(p: string) { '{' !in p && '}' !in p }

  lemma {:induction false} SplitParts(s: string, k: nat)
    requires k < |Split(s)|
    ensures ',' !in Split(s)[k] && |Split(s)[k]| <= |s|
    ensures Plain(s) ==> Plain(Split(s)[k])
  {
    if IndexOf(s, ',').Some? && k > 0 {
      SplitParts(s[IndexOf(s, ',').value + 1..], k - 1);
    }
  }

  function Join(parts: seq<string>): string
    requires |parts| >= 1
  {
    if |parts| == 1 then parts[0] else parts[0] + "," + Join(parts[1..])
  }

  lemma {:induction false} SplitInvertsJoin(s: string)
    ensures Join(Split(s)) == s
  {
    match IndexOf(s, ',')
    case None =>
    case Some(i) =>
      var rest := Split(s[i + 1..]);
      SplitInvertsJoin(s[i + 1..]);
      assert ([s[..i]] + rest)[1..] == rest;
      assert s[..i] + "," + s[i + 1..] == s[..i] + [s[i]] + s[i + 1..] == s;
  }

  predicate HasRange(body: string) {
    exists i :: 0 <= i < |body| - 1 && body[i] == '.' && body[i + 1] == '.'
  }

  // ---------------------------------------------------------------- the reference: a Cartesian product

  /** The first group of a word, when it is a well-formed one. */
  datatype Group = NoGroup | Malformed | Found(open: nat, end: nat, comma: bool)

  /** What lies between an opening brace and the first closing one after it. */
  function GroupAt(w: string, open: nat): (g: Group)
    requires open < |w| && w[open] == '{'
    ensures g.Found? ==> g.open == open < g.end < |w| && w[g.end] == '}'
  {
    match IndexOf(w[open..], '}')
    case None => Malformed
    case Some(length) =>
      var body := w[open + 1..open + length];
      if '{' in body || HasRange(body) then Malformed else Found(open, open + length, ',' in body)
  }

  function FirstGroup(w: string): (g: Group)
    ensures g.Found? ==> g.open < g.end < |w| && w[g.open] == '{' && w[g.end] == '}' && '{' !in w[..g.open]
  {
    match IndexOf(w, '{')
    case None => NoGroup
    case Some(open) => GroupAt(w, open)
  }

  /** The alternatives of each stretch of the word, left to right; None for a
      nested group, an unbalanced brace or a range. */
  function Parse(w: string): (slots: Option<seq<seq<string>>>)
    ensures slots.Some? ==> forall s :: s in slots.value ==> |s| >= 1
  {
    match FirstGroup(w)
    case NoGroup => Some([[w]])
    case Malformed => None
    case Found(open, end, comma) =>
      match Parse(w[end + 1..])
      case None => None
      case Some(rest) =>
        if comma then Some([[w[..open]], Split(w[open + 1..end])] + rest) else Some([[w[..end + 1]]] + rest)
  }

  function Prefixed(p: string, words: seq<string>): (r: seq<string>)
    ensures |r| == |words|
  {
    if words == [] then [] else [p + words[0]] + Prefixed(p, words[1..])
  }

  lemma {:induction false} PrefixedAt(p: string, words: seq<string>, i: nat)
    requires i < |words|
    ensures Prefixed(p, words)[i] == p + words[i]
  {
    if i > 0 {
      PrefixedAt(p, words[1..], i - 1);
    }
  }

  /** Every alternative in turn before every word, the earliest alternative first. */
  function Cross(alternatives: seq<string>, words: seq<string>): seq<string> {
    if alternatives == [] then [] else Prefixed(alternatives[0], words) + Cross(alternatives[1..], words)
  }

  function Product(slots: seq<seq<string>>): seq<string> {
    if slots == [] then [""] else Cross(slots[0], Product(slots[1..]))
  }

  function Expand(w: string): Option<seq<string>> {
    match Parse(w) case None => None case Some(slots) => Some(Product(slots))
  }

  /** A choice of one alternative per slot, concatenated. */
  function Picked(slots: seq<seq<string>>, picks: seq<nat>): string
    requires |picks| == |slots| && forall i :: 0 <= i < |slots| ==> picks[i] < |slots[i]|
  {
    if slots == [] then "" else slots[0][picks[0]] + Picked(slots[1..], picks[1..])
  }

  /** The position of a choice in the product: the leftmost slot is the most significant digit. */
  function Rank(slots: seq<seq<string>>, picks: seq<nat>): nat
    requires |picks| == |slots|
  {
    if slots == [] then 0 else picks[0] * |Product(slots[1..])| + Rank(slots[1..], picks[1..])
  }

  lemma {:induction false} CrossLength(alternatives: seq<string>, words: seq<string>)
    ensures |Cross(alternatives, words)| == |alternatives| * |words|
  {
    if alternatives != [] {
      CrossLength(alternatives[1..], words);
      Rows(|alternatives|, |words|);
    }
  }

  lemma Rows(a: nat, n: nat)
    requires a > 0
    ensures a * n == n + (a - 1) * n
  {
  }

  /** Row a, column i of a table lies inside it. */
  lemma {:induction false} InTable(rows: nat, n: nat, a: nat, i: nat)
    requires a < rows && i < n
    ensures a * n + i < rows * n
  {
    Rows(rows, n);
    if a < rows - 1 {
      InTable(rows - 1, n, a, i);
    }
  }

  lemma {:induction false} CrossAt(alternatives: seq<string>, words: seq<string>, a: nat, i: nat)
    requires a < |alternatives| && i < |words|
    ensures |Cross(alternatives, words)| == |alternatives| * |words|
    ensures a * |words| + i < |alternatives| * |words|
    ensures Cross(alternatives, words)[a * |words| + i] == alternatives[a] + words[i]
  {
    CrossLength(alternatives, words);
    InTable(|alternatives|, |words|, a, i);
    CrossRow(alternatives, words, a, i, a * |words| + i);
  }

  lemma {:induction false} CrossRow(alternatives: seq<string>, words: seq<string>, a: nat, i: nat, k: nat)
    requires a < |alternatives| && i < |words| && k == a * |words| + i && k < |Cross(alternatives, words)|
    ensures Cross(alternatives, words)[k] == alternatives[a] + words[i]
  {
    hide Prefixed;
    var (first, rest) := (Prefixed(alternatives[0], words), Cross(alternatives[1..], words));
    assert Cross(alternatives, words) == first + rest;
    if a == 0 {
      PrefixedAt(alternatives[0], words, i);
    } else {
      Rows(a, |words|);
      CrossRow(alternatives[1..], words, a - 1, i, k - |words|);
    }
  }

  /** The product lists every choice, exactly at its rank. */
  lemma {:induction false} ProductAt(slots: seq<seq<string>>, picks: seq<nat>)
    requires |picks| == |slots| && forall i :: 0 <= i < |slots| ==> picks[i] < |slots[i]|
    ensures Rank(slots, picks) < |Product(slots)|
    ensures Product(slots)[Rank(slots, picks)] == Picked(slots, picks)
  {
    if slots != [] {
      ProductAt(slots[1..], picks[1..]);
      CrossAt(slots[0], Product(slots[1..]), picks[0], Rank(slots[1..], picks[1..]));
    }
  }

  // ---------------------------------------------------------------- laws the loop relies on

  lemma CrossSingle(p: string, words: seq<string>)
    ensures Cross([p], words) == Prefixed(p, words)
  {
    assert Cross([p][1..], words) == [];
  }

  function Before(p: string, words: Option<seq<string>>): Option<seq<string>> {
    if words.None? then None else Some(Prefixed(p, words.value))
  }

  lemma ProductOf(slot: seq<string>, rest: seq<seq<string>>)
    ensures Product([slot] + rest) == Cross(slot, Product(rest))
  {
    assert ([slot] + rest)[1..] == rest;
  }

  /** The word's expansion, from its first group and the expansion of what follows that group. */
  function Combine(g: Group, w: string, rest: Option<seq<string>>): Option<seq<string>>
    requires g.Found? ==> g.open < g.end < |w|
  {
    match g
    case NoGroup => Some([w])
    case Malformed => None
    case Found(open, end, comma) =>
      if rest.None? then None
      else if comma then Some(Prefixed(w[..open], Cross(Split(w[open + 1..end]), rest.value)))
      else Some(Prefixed(w[..end + 1], rest.value))
  }

  function Tail(g: Group, w: string): string
    requires g.Found? ==> g.open < g.end < |w|
  {
    if g.Found? then w[g.end + 1..] else ""
  }

  lemma ProductOfText(p: string, rest: seq<seq<string>>)
    ensures Product([[p]] + rest) == Prefixed(p, Product(rest))
  {
    ProductOf([p], rest);
    CrossSingle(p, Product(rest));
  }

  lemma ProductOfGroup(p: string, alternatives: seq<string>, rest: seq<seq<string>>)
    ensures Product([[p], alternatives] + rest) == Prefixed(p, Cross(alternatives, Product(rest)))
  {
    assert [[p], alternatives] + rest == [[p]] + ([alternatives] + rest);
    ProductOfText(p, [alternatives] + rest);
    ProductOf(alternatives, rest);
  }

  lemma ProductOfWord(w: string)
    ensures Product([[w]]) == [w]
  {
    ProductOfText(w, []);
    assert [[w]] + [] == [[w]];
    assert w + "" == w;
    assert Prefixed(w, [""]) == [w];
  }

  lemma ParseFound(w: string, g: Group, parsed: Option<seq<seq<string>>>)
    requires FirstGroup(w) == g && g.Found? && parsed == Parse(w[g.end + 1..])
    ensures Parse(w) == if parsed.None? then None
                        else if g.comma then Some([[w[..g.open]], Split(w[g.open + 1..g.end])] + parsed.value)
                        else Some([[w[..g.end + 1]]] + parsed.value)
  {
    hide GroupAt, IndexOf, Split;
  }

  lemma ExpandByGroup(w: string)
    ensures Expand(w) == Combine(FirstGroup(w), w, Expand(Tail(FirstGroup(w), w)))
  {
    hide FirstGroup, Split;
    var g := FirstGroup(w);
    match g
    case NoGroup => ProductOfWord(w);
    case Malformed =>
    case Found(open, end, comma) =>
      var parsed := Parse(w[end + 1..]);
      ParseFound(w, g, parsed);
      if parsed.Some? {
        ProductOfFound(w, g, parsed.value);
      }
  }

  lemma ProductOfFound(w: string, g: Group, rest: seq<seq<string>>)
    requires g.Found? && g.open < g.end < |w|
    ensures Some(Product(if g.comma then [[w[..g.open]], Split(w[g.open + 1..g.end])] + rest else [[w[..g.end + 1]]] + rest))
         == Combine(g, w, Some(Product(rest)))
  {
    if g.comma {
      ProductOfGroup(w[..g.open], Split(w[g.open + 1..g.end]), rest);
    } else {
      ProductOfText(w[..g.end + 1], rest);
    }
  }

  lemma GroupAtAfter(p: string, w: string, open: nat)
    requires open < |w| && w[open] == '{'
    ensures (p + w)[|p| + open] == '{'
    ensures GroupAt(p + w, |p| + open) == Shifted(GroupAt(w, open), |p|)
  {
    assert (p + w)[|p| + open..] == w[open..];
    if IndexOf(w[open..], '}').Some? {
      var length := IndexOf(w[open..], '}').value;
      assert (p + w)[|p| + open + 1..|p| + open + length] == w[open + 1..open + length];
    }
  }

  lemma FirstGroupAfter(p: string, w: string)
    requires '{' !in p
    ensures FirstGroup(p + w) == Shifted(FirstGroup(w), |p|)
  {
    IndexOfAfter(p, w, '{');
    if IndexOf(w, '{').Some? {
      GroupAtAfter(p, w, IndexOf(w, '{').value);
    }
  }

  lemma {:induction false} PrefixedTwice(p: string, q: string, words: seq<string>)
    ensures Prefixed(p, Prefixed(q, words)) == Prefixed(p + q, words)
  {
    if words != [] {
      PrefixedTwice(p, q, words[1..]);
      assert p + (q + words[0]) == (p + q) + words[0];
      assert Prefixed(q, words)[1..] == Prefixed(q, words[1..]);
    }
  }

  lemma SlicesAfter(p: string, w: string, i: nat, j: nat)
    requires i <= j <= |w|
    ensures (p + w)[|p| + i..|p| + j] == w[i..j]
    ensures (p + w)[..|p| + i] == p + w[..i]
    ensures (p + w)[|p| + i..] == w[i..]
  {
  }

  /** A group, what is before it and what is after it, once there is a text in front. */
  lemma CutsAfter(p: string, w: string, open: nat, end: nat)
    requires open < end < |w|
    ensures (p + w)[..|p| + open] == p + w[..open]
    ensures (p + w)[|p| + open + 1..|p| + end] == w[open + 1..end]
    ensures (p + w)[..|p| + end + 1] == p + w[..end + 1]
    ensures (p + w)[|p| + end + 1..] == w[end + 1..]
  {
    SlicesAfter(p, w, open + 1, end);
    SlicesAfter(p, w, open, end);
    SlicesAfter(p, w, end + 1, |w|);
  }

  function Shifted(g: Group, n: nat): Group {
    match g
    case Found(open, end, comma) => Found(n + open, n + end, comma)
    case _ => g
  }

  lemma CombineAfter(p: string, w: string, g: Group, rest: Option<seq<string>>)
    requires g.Found? ==> g.open < g.end < |w|
    ensures Combine(Shifted(g, |p|), p + w, rest) == Before(p, Combine(g, w, rest))
    ensures Tail(Shifted(g, |p|), p + w) == Tail(g, w)
  {
    match g
    case NoGroup => assert Prefixed(p, [w]) == [p + w];
    case Malformed =>
    case Found(open, end, comma) =>
      CutsAfter(p, w, open, end);
      if rest.Some? {
        CombineFoundAfter(p, w, g, p + w, Shifted(g, |p|), rest.value);
      }
  }

  lemma CombineFoundAfter(p: string, w: string, g: Group, v: string, h: Group, rest: seq<string>)
    requires g.Found? && h.Found? && g.comma == h.comma && g.open < g.end < |w| && h.open < h.end < |v|
    requires v[..h.open] == p + w[..g.open] && v[h.open + 1..h.end] == w[g.open + 1..g.end]
    requires v[..h.end + 1] == p + w[..g.end + 1]
    ensures Combine(h, v, Some(rest)) == Before(p, Combine(g, w, Some(rest)))
  {
    hide Prefixed, Cross, Split;
    if g.comma {
      PrefixedTwice(p, w[..g.open], Cross(Split(w[g.open + 1..g.end]), rest));
    } else {
      PrefixedTwice(p, w[..g.end + 1], rest);
    }
  }

  /** Text without an opening brace only ever prefixes the expansion. */
  lemma ExpandAfter(p: string, w: string)
    requires '{' !in p
    ensures Expand(p + w) == Before(p, Expand(w))
  {
    var g := FirstGroup(w);
    FirstGroupAfter(p, w);
    ExpandByGroup(w);
    ExpandByGroup(p + w);
    CombineAfter(p, w, g, Expand(Tail(g, w)));
  }

  /** The text up to a first group determines that group. */
  lemma FirstGroupOfPrefix(w: string, r: string)
    requires FirstGroup(w).Found?
    ensures FirstGroup(w[..FirstGroup(w).end + 1] + r) == FirstGroup(w)
  {
    hide IndexOf, HasRange;
    var g := FirstGroup(w);
    var v := w[..g.end + 1] + r;
    assert v[..g.open] == w[..g.open];
    IndexIs(v, '{', g.open);
    var length := g.end - g.open;
    assert v[g.open..][..length] == w[g.open..][..length];
    IndexIs(v[g.open..], '}', length);
    assert v[g.open + 1..g.end] == w[g.open + 1..g.end];
  }

  lemma CombineLiteral(w: string, r: string, g: Group, rest: Option<seq<string>>)
    requires g.Found? && g.open < g.end < |w| && !g.comma
    ensures var literal := w[..g.end + 1];
            Combine(g, literal + r, rest) == Before(literal, rest) && Tail(g, literal + r) == r
  {
    SlicesAfter(w[..g.end + 1], r, 0, |r|);
  }

  /** A literal group only ever prefixes what follows it. */
  lemma ExpandAfterLiteral(w: string, r: string)
    requires FirstGroup(w).Found? && !FirstGroup(w).comma
    ensures var literal := w[..FirstGroup(w).end + 1]; Expand(literal + r) == Before(literal, Expand(r))
  {
    hide Expand, Combine, GroupAt, IndexOf;
    var g := FirstGroup(w);
    var whole := w[..g.end + 1] + r;
    FirstGroupOfPrefix(w, r);
    CombineLiteral(w, r, g, Expand(r));
    ExpandFound(whole, g, r);
  }

  lemma ExpandFound(w: string, g: Group, rest: string)
    requires FirstGroup(w) == g && g.Found? && Tail(g, w) == rest
    ensures Expand(w) == Combine(g, w, Expand(rest))
  {
    ExpandByGroup(w);
  }

  // ---------------------------------------------------------------- the words as they are written

  /** Two dots in a row, anywhere. */
  lemma RangeIsTwoDots(body: string, a: string, b: string)
    ensures body == a + ".." + b ==> HasRange(body)
  {
    if body == a + ".." + b {
      assert body[|a|] == '.' && body[|a| + 1] == '.';
    }
  }

  lemma RangeSplits(body: string) returns (a: string, b: string)
    requires HasRange(body)
    ensures body == a + ".." + b
  {
    var i :| 0 <= i < |body| - 1 && body[i] == '.' && body[i + 1] == '.';
    a, b := body[..i], body[i + 2..];
  }

  lemma GroupOfWord(p: string, body: string, rest: string)
    requires '{' !in p && '}' !in body
    ensures var w := p + "{" + body + "}" + rest;
            var end := |p| + 1 + |body|;
            && w[..|p|] == p && w[|p| + 1..end] == body && w[end + 1..] == rest && w[..end + 1] == p + "{" + body + "}"
            && FirstGroup(w) == if '{' in body || HasRange(body) then Malformed else Found(|p|, end, ',' in body)
  {
    hide IndexOf, HasRange;
    var w := p + "{" + body + "}" + rest;
    IndexIs(w, '{', |p|);
    assert w[|p|..] == "{" + body + "}" + rest;
    IndexIs(w[|p|..], '}', 1 + |body|);
    assert w[|p| + 1..|p| + 1 + |body|] == body;
  }

  /** A group is refused if it is nested or a range, and otherwise replaced by its alternatives if it has a
      comma and kept as it is written if it has none. */
  lemma GroupExpands(p: string, body: string, rest: string)
    requires '{' !in p && '}' !in body
    ensures var w := p + "{" + body + "}" + rest;
            && (Expand(w).None? <==> '{' in body || HasRange(body) || Expand(rest).None?)
            && (Expand(w).Some? ==>
                  Expand(w).value == if ',' in body then Prefixed(p, Cross(Split(body), Expand(rest).value))
                                     else Prefixed(p + "{" + body + "}", Expand(rest).value))
  {
    hide FirstGroup, Split, HasRange;
    var w := p + "{" + body + "}" + rest;
    GroupOfWord(p, body, rest);
    ExpandByGroup(w);
  }

  /** Bash's ranges are refused, wherever their two dots are. */
  lemma RangesAreRefused(p: string, a: string, b: string, rest: string)
    requires '{' !in p && '}' !in a + b
    ensures Expand(p + "{" + (a + ".." + b) + "}" + rest).None?
  {
    var body := a + ".." + b;
    assert '}' !in body by {
      assert forall c :: c in body ==> c in a + b || c == '.';
    }
    RangeIsTwoDots(body, a, b);
    GroupExpands(p, body, rest);
  }

  /** Nothing else is: a group that is refused on its own account is nested or has two dots in a row. */
  lemma RefusedIsARange(p: string, body: string, rest: string) returns (a: string, b: string)
    requires '{' !in p && '}' !in body && '{' !in body && Expand(rest).Some?
    requires Expand(p + "{" + body + "}" + rest).None?
    ensures body == a + ".." + b
  {
    GroupExpands(p, body, rest);
    a, b := RangeSplits(body);
  }

  /** An opening brace without a closing one is refused, and a word without an opening one is kept. */
  lemma UnclosedIsRefused(p: string, q: string)
    requires '{' !in p && '}' !in q
    ensures Expand(p + "{" + q).None? && Expand(p) == Some([p])
  {
    var w := p + "{" + q;
    IndexIs(w, '{', |p|);
    assert w[|p|..] == "{" + q;
    ExpandByGroup(w);
    ExpandByGroup(p);
  }

  // ---------------------------------------------------------------- many words at once

  /** The expansions of several words, one after the other. */
  function ExpandAll(words: seq<string>): Option<seq<string>> {
    if words == [] then Some([])
    else if Expand(words[0]).None? || ExpandAll(words[1..]).None? then None
    else Some(Expand(words[0]).value + ExpandAll(words[1..]).value)
  }

  /** Different texts before the same one. */
  function Appended(prefixes: seq<string>, t: string): (r: seq<string>)
    ensures |r| == |prefixes|
  {
    if prefixes == [] then [] else [prefixes[0] + t] + Appended(prefixes[1..], t)
  }

  lemma {:induction false} AppendedAt(prefixes: seq<string>, t: string, k: nat)
    requires k < |prefixes|
    ensures Appended(prefixes, t)[k] == prefixes[k] + t
  {
    if k > 0 {
      AppendedAt(prefixes[1..], t, k - 1);
    }
  }

  lemma {:induction false} AppendedJoins(a: seq<string>, b: seq<string>, t: string)
    ensures Appended(a + b, t) == Appended(a, t) + Appended(b, t)
  {
    if a == [] {
      assert a + b == b;
    } else {
      assert (a + b)[1..] == a[1..] + b;
      AppendedJoins(a[1..], b, t);
    }
  }

  predicate Unbraced(prefixes: seq<string>) {
    forall k :: 0 <= k < |prefixes| ==> '{' !in prefixes[k]
  }

  /** Words with the same end are expanded by expanding that end once. */
  lemma {:induction false} ExpandAllOfSameEnd(prefixes: seq<string>, t: string)
    requires Unbraced(prefixes)
    ensures prefixes != [] && Expand(t).None? ==> ExpandAll(Appended(prefixes, t)).None?
    ensures Expand(t).Some? ==> ExpandAll(Appended(prefixes, t)) == Some(Cross(prefixes, Expand(t).value))
  {
    hide Expand;
    if prefixes != [] {
      var words := Appended(prefixes, t);
      ExpandAfter(prefixes[0], t);
      ExpandAllOfSameEnd(prefixes[1..], t);
      assert words[1..] == Appended(prefixes[1..], t);
    }
  }

  lemma {:induction false} PrefixedAppends(p: string, a: seq<string>, b: seq<string>)
    ensures Prefixed(p, a + b) == Prefixed(p, a) + Prefixed(p, b)
  {
    if a == [] {
      assert a + b == b;
    } else {
      assert (a + b)[1..] == a[1..] + b;
      PrefixedAppends(p, a[1..], b);
    }
  }

  lemma {:induction false} CrossJoins(a: seq<string>, b: seq<string>, words: seq<string>)
    ensures Cross(a + b, words) == Cross(a, words) + Cross(b, words)
  {
    if a == [] {
      assert a + b == b;
    } else {
      assert (a + b)[1..] == a[1..] + b;
      CrossJoins(a[1..], b, words);
    }
  }

  lemma {:induction false} CrossOfPrefixed(p: string, alternatives: seq<string>, words: seq<string>)
    ensures Cross(Prefixed(p, alternatives), words) == Prefixed(p, Cross(alternatives, words))
  {
    if alternatives != [] {
      var (a, rest) := (alternatives[0], alternatives[1..]);
      CrossOfPrefixed(p, rest, words);
      PrefixedTwice(p, a, words);
      PrefixedAppends(p, Prefixed(a, words), Cross(rest, words));
      assert Prefixed(p, alternatives)[1..] == Prefixed(p, rest);
    }
  }

  /** Every prefix continued by every alternative. */
  function Branched(prefixes: seq<string>, before: string, alternatives: seq<string>): seq<string> {
    if prefixes == [] then []
    else Prefixed(prefixes[0] + before, alternatives) + Branched(prefixes[1..], before, alternatives)
  }

  lemma {:induction false} BranchedLength(prefixes: seq<string>, before: string, alternatives: seq<string>)
    ensures |Branched(prefixes, before, alternatives)| == |prefixes| * |alternatives|
  {
    if prefixes != [] {
      BranchedLength(prefixes[1..], before, alternatives);
      Rows(|prefixes|, |alternatives|);
    }
  }

  lemma {:induction false} BranchedUnbraced(prefixes: seq<string>, before: string, alternatives: seq<string>)
    requires Unbraced(prefixes) && '{' !in before && Unbraced(alternatives)
    ensures Unbraced(Branched(prefixes, before, alternatives))
  {
    if prefixes != [] {
      var first := Prefixed(prefixes[0] + before, alternatives);
      forall k | 0 <= k < |first| ensures '{' !in first[k] {
        PrefixedAt(prefixes[0] + before, alternatives, k);
      }
      BranchedUnbraced(prefixes[1..], before, alternatives);
    }
  }

  lemma {:induction false} CrossOfBranched(prefixes: seq<string>, before: string, alternatives: seq<string>, words: seq<string>)
    ensures Cross(Branched(prefixes, before, alternatives), words)
         == Cross(prefixes, Prefixed(before, Cross(alternatives, words)))
  {
    if prefixes != [] {
      var p := prefixes[0];
      CrossOfBranched(prefixes[1..], before, alternatives, words);
      CrossJoins(Prefixed(p + before, alternatives), Branched(prefixes[1..], before, alternatives), words);
      CrossOfPrefixed(p + before, alternatives, words);
      PrefixedTwice(p, before, Cross(alternatives, words));
    }
  }

  // ---------------------------------------------------------------- expanded words stay as they are

  predicate Final(w: string) { Expand(w) == Some([w]) }

  predicate AllFinal(words: seq<string>) { words == [] || (Final(words[0]) && AllFinal(words[1..])) }

  lemma {:induction false} AllFinalAppends(a: seq<string>, b: seq<string>)
    requires AllFinal(a) && AllFinal(b)
    ensures AllFinal(a + b)
  {
    hide Final;
    if a == [] {
      assert a + b == b;
    } else {
      AllFinalAppends(a[1..], b);
      assert (a + b)[1..] == a[1..] + b;
    }
  }

  /** A text in front, without a brace or ending in a literal group, keeps final words final. */
  lemma {:induction false} PrefixedStayFinal(p: string, words: seq<string>)
    requires AllFinal(words)
    requires '{' !in p || (FirstGroup(p).Found? && !FirstGroup(p).comma && FirstGroup(p).end + 1 == |p|)
    ensures AllFinal(Prefixed(p, words))
  {
    if words != [] {
      var w := words[0];
      PrefixedStayFinal(p, words[1..]);
      if '{' in p {
        assert p[..|p|] == p;
        ExpandAfterLiteral(p, w);
      } else {
        ExpandAfter(p, w);
      }
      assert Prefixed(p, [w]) == [p + w];
    }
  }

  lemma {:induction false} CrossStaysFinal(alternatives: seq<string>, words: seq<string>)
    requires AllFinal(words) && forall k :: 0 <= k < |alternatives| ==> Plain(alternatives[k])
    ensures AllFinal(Cross(alternatives, words))
  {
    if alternatives != [] {
      PrefixedStayFinal(alternatives[0], words);
      CrossStaysFinal(alternatives[1..], words);
      AllFinalAppends(Prefixed(alternatives[0], words), Cross(alternatives[1..], words));
    }
  }

  lemma BodyAlternatives(w: string)
    requires FirstGroup(w).Found? && FirstGroup(w).comma
    ensures var g := FirstGroup(w);
            var alternatives := Split(w[g.open + 1..g.end]);
            && |alternatives| >= 2
            && forall k :: 0 <= k < |alternatives| ==>
                 Plain(alternatives[k]) && |alternatives[k]| <= g.end - g.open - 1
  {
    var g := FirstGroup(w);
    var body := w[g.open + 1..g.end];
    assert w[g.open..][..g.end - g.open][1..] == body;
    assert Plain(body);
    forall k | 0 <= k < |Split(body)| ensures Plain(Split(body)[k]) && |Split(body)[k]| <= |body| {
      SplitParts(body, k);
    }
  }

  /** Expansion is idempotent: no result has anything left to expand. */
  lemma {:induction false} ResultsAreFinal(w: string)
    requires Expand(w).Some?
    ensures AllFinal(Expand(w).value)
    decreases |w|
  {
    hide FirstGroup, Split, Expand;
    ExpandByGroup(w);
    var g := FirstGroup(w);
    if g.Found? {
      ResultsAreFinal(Tail(g, w));
      var rest := Expand(Tail(g, w)).value;
      if g.comma {
        BodyAlternatives(w);
        CrossStaysFinal(Split(w[g.open + 1..g.end]), rest);
        PrefixedStayFinal(w[..g.open], Cross(Split(w[g.open + 1..g.end]), rest));
      } else {
        FirstGroupOfPrefix(w, "");
        assert w[..g.end + 1] + "" == w[..g.end + 1];
        PrefixedStayFinal(w[..g.end + 1], rest);
      }
    } else {
      assert AllFinal([w]) by { assert [w][1..] == []; }
    }
  }

  predicate NoneLonger(words: seq<string>, length: nat) {
    words == [] || (|words[0]| <= length && NoneLonger(words[1..], length))
  }

  lemma {:induction false} PrefixedBounds(p: string, words: seq<string>, length: nat)
    requires NoneLonger(words, length)
    ensures NoneLonger(Prefixed(p, words), |p| + length)
  {
    if words != [] {
      PrefixedBounds(p, words[1..], length);
    }
  }

  lemma {:induction false} BoundsAppend(a: seq<string>, b: seq<string>, length: nat)
    requires NoneLonger(a, length) && NoneLonger(b, length)
    ensures NoneLonger(a + b, length)
  {
    if a == [] {
      assert a + b == b;
    } else {
      assert (a + b)[1..] == a[1..] + b;
      BoundsAppend(a[1..], b, length);
    }
  }

  lemma {:induction false} BoundsWiden(words: seq<string>, short: nat, length: nat)
    requires NoneLonger(words, short) && short <= length
    ensures NoneLonger(words, length)
  {
    if words != [] {
      BoundsWiden(words[1..], short, length);
    }
  }

  lemma {:induction false} CrossBounds(alternatives: seq<string>, words: seq<string>, n: nat, length: nat)
    requires NoneLonger(words, length) && forall k :: 0 <= k < |alternatives| ==> |alternatives[k]| <= n
    ensures NoneLonger(Cross(alternatives, words), n + length)
  {
    if alternatives != [] {
      PrefixedBounds(alternatives[0], words, length);
      BoundsWiden(Prefixed(alternatives[0], words), |alternatives[0]| + length, n + length);
      CrossBounds(alternatives[1..], words, n, length);
      BoundsAppend(Prefixed(alternatives[0], words), Cross(alternatives[1..], words), n + length);
    }
  }

  /** No result is longer than the word. */
  lemma {:induction false} ResultsAreNoLonger(w: string)
    requires Expand(w).Some?
    ensures NoneLonger(Expand(w).value, |w|)
    decreases |w|
  {
    hide FirstGroup, Split, Expand;
    ExpandByGroup(w);
    var g := FirstGroup(w);
    if g.Found? {
      ResultsAreNoLonger(Tail(g, w));
      GroupIsNoLonger(w, g, Expand(Tail(g, w)).value);
    } else {
      assert [w][1..] == [];
    }
  }

  lemma GroupIsNoLonger(w: string, g: Group, rest: seq<string>)
    requires FirstGroup(w) == g && g.Found? && NoneLonger(rest, |Tail(g, w)|)
    ensures NoneLonger(Combine(g, w, Some(rest)).value, |w|)
  {
    hide FirstGroup, Split;
    var length := |w| - g.end - 1;
    assert |Tail(g, w)| == length;
    if g.comma {
      var alternatives := Split(w[g.open + 1..g.end]);
      BodyAlternatives(w);
      CrossBounds(alternatives, rest, g.end - g.open - 1, length);
      var words := Cross(alternatives, rest);
      PrefixedBounds(w[..g.open], words, g.end - g.open - 1 + length);
      BoundsWiden(Prefixed(w[..g.open], words), g.open + (g.end - g.open - 1 + length), |w|);
    } else {
      PrefixedBounds(w[..g.end + 1], rest, length);
    }
  }

  // ---------------------------------------------------------------- when expandBraces finishes

  predicate TakesChoice(g: Group) { g.Found? && g.comma }

  /** A part of a word between two literal groups, or an end: how many of its groups offer a choice,
      and how many ways there are to choose. */
  datatype Stretch = Stretch(choices: nat, ways: nat) {
    predicate Proper() { if choices == 0 then ways == 1 else ways >= 2 }
  }

  predicate AllProper(ss: seq<Stretch>) { forall s :: s in ss ==> s.Proper() }

  /** One more group with k alternatives in the first stretch. */
  function Widened(ss: seq<Stretch>, k: nat): (r: seq<Stretch>)
    requires ss != []
    ensures r != [] && r[1..] == ss[1..]
  {
    [Stretch(ss[0].choices + 1, k * ss[0].ways)] + ss[1..]
  }

  function Alternatives(w: string, g: Group): nat
    requires g.Found? ==> g.open < g.end < |w|
  {
    if g.Found? then |Split(w[g.open + 1..g.end])| else 0
  }

  function Stretches(w: string): (ss: seq<Stretch>)
    ensures ss != []
    decreases |w|
  {
    var g := FirstGroup(w);
    if !g.Found? then [Stretch(0, 1)]
    else if g.comma then Widened(Stretches(Tail(g, w)), Alternatives(w, g))
    else [Stretch(0, 1)] + Stretches(Tail(g, w))
  }

  lemma {:induction false} StretchesAreProper(w: string)
    ensures AllProper(Stretches(w))
    decreases |w|
  {
    hide FirstGroup, Split;
    var g := FirstGroup(w);
    if g.Found? {
      StretchesAreProper(Tail(g, w));
      var rest := Stretches(Tail(g, w));
      assert rest[0] in rest;
      if g.comma {
        BodyAlternatives(w);
        AtLeast(Alternatives(w, g), rest[0].ways);
      }
    }
  }

  lemma AtLeast(a: nat, b: nat)
    requires a >= 1 && b >= 1
    ensures a * b >= a && a * b >= b
  {
  }

  /** At most seven choices in any stretch, and no more ways to choose than allowed. */
  predicate AllFit(ss: seq<Stretch>, limit: int) {
    forall s :: s in ss ==> s.choices <= 7 && (s.choices > 0 ==> s.ways <= limit)
  }

  /** What it takes to answer true. */
  predicate Finishes(w: string, limit: int) {
    Expand(w).Some? && AllFit(Stretches(w), limit)
  }

  /** What it takes between two rounds, with n words whose end has these stretches. */
  predicate AllFitFrom(ss: seq<Stretch>, n: nat, rounds: nat, limit: int)
    requires ss != []
  {
    ss[0].choices < rounds && (ss[0].choices > 0 ==> n * ss[0].ways <= limit) && AllFit(ss[1..], limit)
  }

  predicate Fits(t: string, n: nat, rounds: nat, limit: int) {
    Expand(t).Some? && AllFitFrom(Stretches(t), n, rounds, limit)
  }

  lemma AllFitByHead(ss: seq<Stretch>, limit: int)
    requires ss != []
    ensures AllFit(ss, limit) <==> AllFit([ss[0]], limit) && AllFit(ss[1..], limit)
  {
    assert ss == [ss[0]] + ss[1..];
  }

  lemma FitsAtFirst(w: string, limit: int)
    ensures Fits(w, 1, 8, limit) <==> Finishes(w, limit)
  {
    hide Stretches, Expand;
    var ss := Stretches(w);
    AllFitByHead(ss, limit);
    assert AllFit([ss[0]], limit) <==> ss[0].choices <= 7 && (ss[0].choices > 0 ==> ss[0].ways <= limit) by {
      assert ss[0] in [ss[0]];
    }
  }

  lemma NoRoundsLeft(t: string, n: nat, limit: int)
    ensures !Fits(t, n, 0, limit)
  {
  }

  /** A round that takes a choice: n words become n * k. */
  lemma FitsByChoice(t: string, n: nat, rounds: nat, limit: int)
    requires TakesChoice(FirstGroup(t)) && n >= 1 && rounds >= 1
    ensures var (g, k) := (FirstGroup(t), Alternatives(t, FirstGroup(t)));
            Fits(t, n, rounds, limit) <==> n * k <= limit && Fits(Tail(g, t), n * k, rounds - 1, limit)
  {
    hide FirstGroup, Expand, AllFitFrom;
    var g := FirstGroup(t);
    ExpandByGroup(t);
    StretchesAreProper(Tail(g, t));
    BodyAlternatives(t);
    WidenedFits(Stretches(Tail(g, t)), Alternatives(t, g), n, rounds, limit);
  }

  lemma WidenedFits(ss: seq<Stretch>, k: nat, n: nat, rounds: nat, limit: int)
    requires ss != [] && AllProper(ss) && k >= 1 && n >= 1 && rounds >= 1
    ensures AllFitFrom(Widened(ss, k), n, rounds, limit) <==> n * k <= limit && AllFitFrom(ss, n * k, rounds - 1, limit)
  {
    hide AllFit;
    assert ss[0] in ss;
    Wider(n, k, ss[0].ways);
  }

  lemma Wider(n: nat, k: nat, ways: nat)
    requires n >= 1 && k >= 1 && ways >= 1
    ensures n * (k * ways) == (n * k) * ways >= n * k
  {
    AtLeast(n, k);
    AtLeast(n * k, ways);
  }

  /** A round that only looks past a literal group. */
  lemma FitsPastLiteral(t: string, n: nat, rounds: nat, limit: int)
    requires FirstGroup(t).Found? && !FirstGroup(t).comma && rounds >= 1
    ensures Fits(t, n, rounds, limit) <==> Finishes(Tail(FirstGroup(t), t), limit)
  {
    hide FirstGroup, Expand, AllFit;
    var g := FirstGroup(t);
    ExpandByGroup(t);
    assert Stretches(t)[1..] == Stretches(Tail(g, t));
  }

  lemma FitsWithoutGroup(t: string, n: nat, rounds: nat, limit: int)
    requires !FirstGroup(t).Found? && rounds >= 1
    ensures Fits(t, n, rounds, limit) <==> FirstGroup(t).NoGroup?
  {
    ExpandByGroup(t);
  }

  // ---------------------------------------------------------------- expandBraces

  /** What a word p + t becomes in one round; rest is what follows a literal group, expanded. */
  function Produced(p: string, t: string, g: Group, rest: seq<string>): seq<string>
    requires g.Found? ==> g.open < g.end < |t|
  {
    match g
    case NoGroup => [p + t]
    case Malformed => []
    case Found(open, end, comma) =>
      if comma then Appended(Prefixed(p + t[..open], Split(t[open + 1..end])), t[end + 1..])
      else Prefixed(p + t[..end + 1], rest)
  }

  function AllProduced(prefixes: seq<string>, t: string, g: Group, rest: seq<string>): seq<string>
    requires g.Found? ==> g.open < g.end < |t|
  {
    if prefixes == [] then [] else Produced(prefixes[0], t, g, rest) + AllProduced(prefixes[1..], t, g, rest)
  }

  /** A choice: the words still have the same end. */
  lemma {:induction false} ProducedByChoice(prefixes: seq<string>, t: string, g: Group, rest: seq<string>)
    requires g.Found? && g.open < g.end < |t| && g.comma
    ensures AllProduced(prefixes, t, g, rest)
         == Appended(Branched(prefixes, t[..g.open], Split(t[g.open + 1..g.end])), Tail(g, t))
  {
    hide Split;
    if prefixes != [] {
      var (before, alternatives) := (t[..g.open], Split(t[g.open + 1..g.end]));
      ProducedByChoice(prefixes[1..], t, g, rest);
      AppendedJoins(Prefixed(prefixes[0] + before, alternatives), Branched(prefixes[1..], before, alternatives), Tail(g, t));
    }
  }

  /** No choice: the words are expanded. */
  lemma {:induction false} ProducedFinally(prefixes: seq<string>, t: string, g: Group, rest: seq<string>)
    requires g.NoGroup? || (g.Found? && g.open < g.end < |t| && !g.comma)
    ensures AllProduced(prefixes, t, g, rest) == Cross(prefixes, Combine(g, t, Some(rest)).value)
  {
    if prefixes != [] {
      var p := prefixes[0];
      ProducedFinally(prefixes[1..], t, g, rest);
      if g.NoGroup? {
        assert Prefixed(p, [t]) == [p + t];
      } else {
        PrefixedTwice(p, t[..g.end + 1], rest);
      }
    }
  }

  /** What follows the first group, expanded if it can be. */
  function Rest(t: string): seq<string> {
    var rest := Expand(Tail(FirstGroup(t), t));
    if rest.None? then [] else rest.value
  }

  function Replaced(prefixes: seq<string>, t: string): seq<string> {
    AllProduced(prefixes, t, FirstGroup(t), Rest(t))
  }

  /** The prefixes after a round that takes a choice. */
  function Continued(prefixes: seq<string>, t: string): seq<string>
    requires FirstGroup(t).Found?
  {
    var g := FirstGroup(t);
    Branched(prefixes, t[..g.open], Split(t[g.open + 1..g.end]))
  }

  /** Replacing every word by its alternatives does not change what the words expand to. */
  lemma RoundKeepsExpansion(prefixes: seq<string>, t: string)
    requires Unbraced(prefixes) && prefixes != [] && TakesChoice(FirstGroup(t))
    ensures var words := Replaced(prefixes, t);
            && words == Appended(Continued(prefixes, t), Tail(FirstGroup(t), t))
            && Unbraced(Continued(prefixes, t)) && Continued(prefixes, t) != []
            && ExpandAll(words) == ExpandAll(Appended(prefixes, t))
  {
    hide FirstGroup, Split, Expand, ExpandAll, Appended;
    var g := FirstGroup(t);
    var (before, alternatives) := (t[..g.open], Split(t[g.open + 1..g.end]));
    BodyAlternatives(t);
    BranchedUnbraced(prefixes, before, alternatives);
    BranchedLength(prefixes, before, alternatives);
    AtLeast(|prefixes|, |alternatives|);
    ProducedByChoice(prefixes, t, g, Rest(t));
    ExpandByGroup(t);
    ExpandAllOfSameEnd(prefixes, t);
    ExpandAllOfSameEnd(Branched(prefixes, before, alternatives), Tail(g, t));
    CrossOfBranched(prefixes, before, alternatives, Rest(t));
  }

  /** A round without a choice leaves the expansion. */
  lemma LastRoundExpands(prefixes: seq<string>, t: string)
    requires Unbraced(prefixes) && Expand(t).Some? && !TakesChoice(FirstGroup(t))
    ensures ExpandAll(Appended(prefixes, t)) == Some(Replaced(prefixes, t))
  {
    hide FirstGroup, Expand, ExpandAll, Appended;
    ExpandByGroup(t);
    ExpandAllOfSameEnd(prefixes, t);
    ProducedFinally(prefixes, t, FirstGroup(t), Rest(t));
  }

  method PrefixAll(p: string, words: seq<string>) returns (r: seq<string>)
    ensures r == Prefixed(p, words)
  {
    r := [];
    for j := 0 to |words|
      invariant r == Prefixed(p, words)[..j]
    {
      PrefixedAt(p, words, j);
      r := r + [p + words[j]];
    }
  }

  method Substitute(p: string, alternatives: seq<string>, tail: string) returns (r: seq<string>)
    ensures r == Appended(Prefixed(p, alternatives), tail)
  {
    r := [];
    for j := 0 to |alternatives|
      invariant r == Appended(Prefixed(p, alternatives), tail)[..j]
    {
      AppendedAt(Prefixed(p, alternatives), tail, j);
      PrefixedAt(p, alternatives, j);
      r := r + [p + alternatives[j] + tail];
    }
  }

  /** Whether a word that ends in t gets through a round. */
  predicate Passable(t: string, limit: int) {
    var g := FirstGroup(t);
    g.NoGroup? || (g.Found? && (g.comma || Finishes(Tail(g, t), limit)))
  }

  /** The first group of a word p + t is the one of t, with the same text in it and after it. */
  lemma GroupAfter(p: string, t: string)
    requires '{' !in p
    ensures FirstGroup(p + t) == Shifted(FirstGroup(t), |p|)
    ensures FirstGroup(t).Found? ==> SameGroup(p, t, FirstGroup(t), p + t, FirstGroup(p + t))
  {
    FirstGroupAfter(p, t);
    if FirstGroup(t).Found? {
      CutsAfter(p, t, FirstGroup(t).open, FirstGroup(t).end);
    }
  }

  predicate SameGroup(p: string, t: string, g: Group, w: string, h: Group)
    requires g.Found? && g.open < g.end < |t| && h.Found? && h.open < h.end < |w|
  {
    && g.comma == h.comma && w[..h.open] == p + t[..g.open] && w[..h.end + 1] == p + t[..g.end + 1]
    && w[h.open + 1..h.end] == t[g.open + 1..g.end] && w[h.end + 1..] == t[g.end + 1..]
  }

  /** A choice; every alternative takes the group's place. */
  method ExpandChoice(w: string, h: Group, ghost p: string, ghost t: string, ghost g: Group) returns (produced: seq<string>)
    requires g.Found? && g.open < g.end < |t| && h.Found? && h.open < h.end < |w| && SameGroup(p, t, g, w, h) && g.comma
    ensures forall rest :: produced == Produced(p, t, g, rest)
  {
    hide Split;
    produced := Substitute(w[..h.open], Split(w[h.open + 1..h.end]), w[h.end + 1..]);
  }

  /** Not a choice; keep the group literal and look past it. */
  method ExpandLiteral(w: string, h: Group, limit: int, ghost p: string, ghost t: string, ghost g: Group)
    returns (produced: seq<string>, fine: bool)
    requires g.Found? && g.open < g.end < |t| && h.Found? && h.open < h.end < |w| && SameGroup(p, t, g, w, h) && !g.comma
    ensures fine <==> Finishes(Tail(g, t), limit)
    ensures fine ==> Expand(Tail(g, t)).Some? && produced == Produced(p, t, g, Expand(Tail(g, t)).value)
    decreases |t|, 0
  {
    hide Finishes, Expand;
    var rest;
    rest, fine := ExpandBraces(w[h.end + 1..], limit);
    produced := [];
    if fine {
      produced := PrefixAll(w[..h.end + 1], rest);
    }
  }

  method ExpandOne(w: string, limit: int, ghost p: string, ghost t: string)
    returns (produced: seq<string>, replaced: bool, fine: bool)
    requires w == p + t && '{' !in p
    ensures fine <==> Passable(t, limit)
    ensures fine ==> produced == Produced(p, t, FirstGroup(t), Rest(t)) && (replaced <==> TakesChoice(FirstGroup(t)))
    decreases |t|, 1
  {
    hide FirstGroup, Expand, Finishes, SameGroup;
    produced, replaced, fine := [], false, false;
    GroupAfter(p, t);
    var g := FirstGroup(w);
    if g.Malformed? {
      return;
    }
    if g.NoGroup? {
      produced, fine := [w], true;
    } else if g.comma {
      produced := ExpandChoice(w, g, p, t, FirstGroup(t));
      replaced, fine := true, true;
    } else {
      produced, fine := ExpandLiteral(w, g, limit, p, t, FirstGroup(t));
    }
  }

  /** One round over the whole list. */
  method ExpandRound(results: seq<string>, limit: int, ghost prefixes: seq<string>, ghost t: string)
    returns (next: seq<string>, changed: bool, ok: bool)
    requires results == Appended(prefixes, t) && Unbraced(prefixes) && prefixes != []
    ensures ok <==> Passable(t, limit) && (TakesChoice(FirstGroup(t)) ==> |Replaced(prefixes, t)| <= limit)
    ensures ok ==> next == Replaced(prefixes, t) && (changed <==> TakesChoice(FirstGroup(t)))
    decreases |t|, 2
  {
    hide FirstGroup, Expand, Passable, Produced, Rest;
    next, changed, ok := [], false, false;
    ghost var (g, rest) := (FirstGroup(t), Rest(t));
    var i := 0;
    while i < |results|
      invariant 0 <= i <= |results|
      invariant AllProduced(prefixes, t, g, rest) == next + AllProduced(prefixes[i..], t, g, rest)
      invariant i > 0 ==> Passable(t, limit)
      invariant changed <==> i > 0 && TakesChoice(g)
      invariant changed ==> |next| <= limit
    {
      AppendedAt(prefixes, t, i);
      var produced, replaced, fine := ExpandOne(results[i], limit, prefixes[i], t);
      if !fine {
        return;
      }
      assert prefixes[i..][1..] == prefixes[i + 1..];
      next, changed := next + produced, changed || replaced;
      if replaced && |next| > limit {
        return;
      }
      i := i + 1;
    }
    ok := true;
  }

  /** Between two rounds: words that differ only before the same end. */
  ghost predicate Midway(word: string, limit: int, round: nat, prefixes: seq<string>, t: string, results: seq<string>) {
    && results == Appended(prefixes, t) && Unbraced(prefixes) && prefixes != [] && |t| <= |word| && round <= 8
    && ExpandAll(results) == Expand(word)
    && (Finishes(word, limit) <==> Fits(t, |prefixes|, 8 - round, limit))
  }

  lemma RoundsStart(word: string, limit: int)
    ensures Midway(word, limit, 0, [""], word, [word])
  {
    hide FirstGroup, Expand, Finishes, Fits;
    FitsAtFirst(word, limit);
    assert [word][1..] == [] && [""][1..] == [] && "" + word == word;
    assert Appended([""], word) == ["" + word] + Appended([], word);
    assert ExpandAll([]) == Some([]);
    if Expand(word).Some? {
      assert Expand(word).value + [] == Expand(word).value;
    }
  }

  /** What a round does to the conditions for answering true. */
  lemma RoundDecides(word: string, limit: int, round: nat, prefixes: seq<string>, t: string, results: seq<string>)
    requires Midway(word, limit, round, prefixes, t, results) && round < 8
    ensures var g := FirstGroup(t);
            && (TakesChoice(g) ==>
                  && Passable(t, limit)
                  && (|Replaced(prefixes, t)| > limit ==> !Finishes(word, limit))
                  && (|Replaced(prefixes, t)| <= limit ==>
                        Midway(word, limit, round + 1, Continued(prefixes, t), Tail(g, t), Replaced(prefixes, t))))
            && (!TakesChoice(g) ==> (Finishes(word, limit) <==> Passable(t, limit)))
            && (!TakesChoice(g) && Passable(t, limit) ==> Expand(word) == Some(Replaced(prefixes, t)))
  {
    hide FirstGroup, Split, Expand, Fits, Stretches, AllFit, ExpandAll, Appended, AllProduced;
    var g := FirstGroup(t);
    if TakesChoice(g) {
      RoundKeepsExpansion(prefixes, t);
      BranchedLength(prefixes, t[..g.open], Split(t[g.open + 1..g.end]));
      assert |Continued(prefixes, t)| == |prefixes| * Alternatives(t, g);
      FitsByChoice(t, |prefixes|, 8 - round, limit);
    } else if g.Found? {
      FitsPastLiteral(t, |prefixes|, 8 - round, limit);
      ExpandByGroup(t);
      if Passable(t, limit) {
        LastRoundExpands(prefixes, t);
      }
    } else {
      FitsWithoutGroup(t, |prefixes|, 8 - round, limit);
      ExpandByGroup(t);
      if Passable(t, limit) {
        LastRoundExpands(prefixes, t);
      }
    }
  }

  /** Rounds over a growing list; a literal group is looked past by a recursive
      call on the rest of its word. */
  method ExpandBraces(word: string, limit: int) returns (results: seq<string>, ok: bool)
    ensures ok <==> Finishes(word, limit)
    ensures ok ==> Expand(word) == Some(results) && NoneLonger(results, |word|)
    decreases |word|, 3
  {
    hide FirstGroup, Expand, Fits, Finishes, Replaced, Continued, Passable, NoneLonger, ExpandAll, Appended;
    results, ok := [word], false;
    ghost var (prefixes, t) := ([""], word);
    RoundsStart(word, limit);
    var round := 0;
    while round < 8
      invariant 0 <= round <= 8 && |t| <= |word|
      invariant Midway(word, limit, round, prefixes, t, results)
    {
      RoundDecides(word, limit, round, prefixes, t, results);
      var next, changed, fine := ExpandRound(results, limit, prefixes, t);
      if !fine {
        return [], false;
      }
      results := next;
      if !changed {
        ResultsAreNoLonger(word);
        return results, true;
      }
      prefixes, t := Continued(prefixes, t), Tail(FirstGroup(t), t);
      round := round + 1;
    }
    NoRoundsLeft(t, |prefixes|, limit);
    results := [];
  }

  // ---------------------------------------------------------------- what the limit is worth

  function Total(ss: seq<Stretch>): nat {
    if ss == [] then 1 else ss[0].ways * Total(ss[1..])
  }

  lemma TotalWidens(ss: seq<Stretch>, k: nat)
    requires ss != []
    ensures Total(Widened(ss, k)) == k * Total(ss)
  {
    assert (k * ss[0].ways) * Total(ss[1..]) == k * (ss[0].ways * Total(ss[1..]));
  }

  /** The number of results is what the stretches multiply to. */
  lemma {:induction false} ResultsAreTotal(w: string)
    requires Expand(w).Some?
    ensures |Expand(w).value| == Total(Stretches(w))
    decreases |w|
  {
    hide FirstGroup, Split, Expand, Total;
    var g := FirstGroup(w);
    ExpandByGroup(w);
    assert Total([Stretch(0, 1)]) == 1 by { TotalOne(); }
    if g.Found? {
      ResultsAreTotal(Tail(g, w));
      var ss := Stretches(Tail(g, w));
      if g.comma {
        TotalWidens(ss, Alternatives(w, g));
        CrossLength(Split(w[g.open + 1..g.end]), Expand(Tail(g, w)).value);
      } else {
        TotalAfterLiteral(ss);
      }
    }
  }

  lemma TotalOne()
    ensures Total([Stretch(0, 1)]) == 1
  {
    assert Total([Stretch(0, 1)][1..]) == 1;
  }

  lemma TotalAfterLiteral(ss: seq<Stretch>)
    ensures Total([Stretch(0, 1)] + ss) == Total(ss)
  {
    assert ([Stretch(0, 1)] + ss)[1..] == ss;
  }

  /** Some word of each stretch is in the total, twice over for another stretch with a choice. */
  lemma {:induction false} TotalAtLeast(ss: seq<Stretch>, i: nat)
    requires AllProper(ss) && i < |ss|
    ensures Total(ss) >= ss[i].ways >= 1
    ensures forall j :: 0 <= j < |ss| && j != i && ss[j].choices > 0 ==> Total(ss) >= 2 * ss[i].ways
  {
    var (s, rest) := (ss[0], ss[1..]);
    assert s in ss && ss[i] in ss && AllProper(rest);
    TotalIsPositive(rest);
    AtLeast(s.ways, Total(rest));
    if i > 0 {
      TotalAtLeast(rest, i - 1);
      TwiceOver(s.ways, Total(rest), rest[i - 1].ways);
    }
    forall j | 0 <= j < |ss| && j != i && ss[j].choices > 0 ensures Total(ss) >= 2 * ss[i].ways {
      if i == 0 {
        TotalAtLeast(rest, j - 1);
        assert ss[j] in ss;
        TwiceOver(Total(rest), s.ways, s.ways);
      } else if j > 0 {
        assert rest[j - 1] == ss[j] && rest[i - 1] == ss[i];
      }
    }
  }

  lemma TwiceOver(a: nat, b: nat, c: nat)
    requires b >= c
    ensures a >= 2 ==> a * b >= 2 * c && b * a >= 2 * c
  {
  }

  lemma {:induction false} TotalIsPositive(ss: seq<Stretch>)
    requires AllProper(ss)
    ensures Total(ss) >= 1
  {
    if ss != [] {
      assert ss[0] in ss;
      TotalIsPositive(ss[1..]);
      AtLeast(ss[0].ways, Total(ss[1..]));
    }
  }

  /** At most one stretch offers a choice: no literal group has one before it and one after it. */
  predicate OneStretchChooses(ss: seq<Stretch>) {
    forall i, j :: 0 <= i < j < |ss| ==> ss[i].choices == 0 || ss[j].choices == 0
  }

  lemma {:induction false} TotalOfOneStretch(ss: seq<Stretch>, limit: int)
    requires AllProper(ss) && OneStretchChooses(ss) && AllFit(ss, limit)
    ensures Total(ss) <= Largest(1, limit)
    ensures (forall s :: s in ss ==> s.choices == 0) ==> Total(ss) == 1
  {
    if ss != [] {
      assert ss[0] in ss;
      TotalOfOneStretch(ss[1..], limit);
      if ss[0].choices > 0 {
        forall s | s in ss[1..] ensures s.choices == 0 {
          var j :| 0 <= j < |ss[1..]| && ss[1..][j] == s;
          assert ss[j + 1] == s;
        }
      }
    }
  }

  function Largest(a: int, b: int): int { if a >= b then a else b }

  lemma {:induction false} WidestOf(ss: seq<Stretch>) returns (m: nat)
    requires ss != []
    ensures m < |ss| && forall s :: s in ss ==> s.ways <= ss[m].ways
  {
    m := 0;
    if |ss| > 1 {
      var n := WidestOf(ss[1..]);
      m := if ss[0].ways >= ss[n + 1].ways then 0 else n + 1;
      assert ss == [ss[0]] + ss[1..];
    }
  }

  /**
   * For a word that can be finished at all, the limit bounds the number of results, whatever it is,
   * if and only if the choices are all in one stretch: the limit is asked for each stretch on its own.
   */
  lemma LimitBoundsExactlyWhen(w: string)
    requires Expand(w).Some? && forall s :: s in Stretches(w) ==> s.choices <= 7
    ensures (forall limit: int :: Finishes(w, limit) ==> |Expand(w).value| <= Largest(1, limit))
       <==> OneStretchChooses(Stretches(w))
  {
    hide FirstGroup, Expand, Stretches, Total;
    var ss := Stretches(w);
    StretchesAreProper(w);
    ResultsAreTotal(w);
    if OneStretchChooses(ss) {
      forall limit: int | Finishes(w, limit) ensures |Expand(w).value| <= Largest(1, limit) {
        TotalOfOneStretch(ss, limit);
      }
    } else {
      var limit := TotalIsMore(ss);
      assert Finishes(w, limit) && |Expand(w).value| > Largest(1, limit);
    }
  }

  lemma TotalIsMore(ss: seq<Stretch>) returns (limit: nat)
    requires ss != [] && AllProper(ss) && !OneStretchChooses(ss) && forall s :: s in ss ==> s.choices <= 7
    ensures AllFit(ss, limit) && Total(ss) > Largest(1, limit)
  {
    var i, j :| 0 <= i < j < |ss| && ss[i].choices > 0 && ss[j].choices > 0;
    var m := WidestOf(ss);
    limit := ss[m].ways;
    assert ss[i] in ss && ss[m] in ss;
    TotalAtLeast(ss, m);
  }

  lemma BracedGroup(body: string, rest: string)
    requires Plain(body) && !HasRange(body)
    ensures var (g, w) := (Found(0, |body| + 1, ',' in body), "{" + body + "}" + rest);
            && FirstGroup(w) == g && Tail(g, w) == rest && w[1..g.end] == body
            && (Expand(w).Some? <==> Expand(rest).Some?)
  {
    var (g, w) := (Found(0, |body| + 1, ',' in body), "{" + body + "}" + rest);
    IndexIs(w, '{', 0);
    assert w[0..] == w && w[1..|body| + 1] == body;
    IndexIs(w, '}', |body| + 1);
    assert w[g.end + 1..] == rest;
    ExpandByGroup(w);
  }

  lemma TwoAlternatives(a: char, b: char)
    requires ',' != a && ',' != b
    ensures |Split([a] + "," + [b])| == 2
  {
    var body := [a] + "," + [b];
    IndexIs(body, ',', 1);
    assert body[2..] == [b];
  }

  lemma PairBody(a: char, b: char)
    requires a !in "{},." && b !in "{},."
    ensures var body := [a] + "," + [b]; Plain(body) && !HasRange(body) && ',' in body && |Split(body)| == 2
  {
    TwoAlternatives(a, b);
  }

  lemma PairStretch(a: char, b: char, rest: string)
    requires a !in "{},." && b !in "{},."
    ensures var w := "{" + ([a] + "," + [b]) + "}" + rest;
            Stretches(w) == Widened(Stretches(rest), 2) && (Expand(w).Some? <==> Expand(rest).Some?)
  {
    hide FirstGroup, Split, Expand, HasRange, Plain, Widened;
    PairBody(a, b);
    BracedGroup([a] + "," + [b], rest);
  }

  lemma LiteralStretch(x: char, rest: string)
    requires x !in "{},."
    ensures var w := "{" + [x] + "}" + rest;
            Stretches(w) == [Stretch(0, 1)] + Stretches(rest) && (Expand(w).Some? <==> Expand(rest).Some?)
  {
    BracedGroup([x], rest);
  }

  /** Four words for a limit of three. */
  lemma TheLimitCanBeExceeded()
    ensures var w := "{a,b}{x}{c,d}"; Finishes(w, 3) && |Expand(w).value| == 4
  {
    hide FirstGroup, Expand, Stretches, Total, AllFit;
    var w := "{a,b}{x}{c,d}";
    StretchesOfTheInput();
    ResultsAreTotal(w);
    TwoPairs(3);
  }

  lemma TwoPairs(limit: int)
    ensures Total([Stretch(1, 2), Stretch(1, 2)]) == 4 && (limit >= 2 ==> AllFit([Stretch(1, 2), Stretch(1, 2)], limit))
  {
    assert [Stretch(1, 2), Stretch(1, 2)][1..] == [Stretch(1, 2)] && [Stretch(1, 2)][1..] == [];
  }

  lemma StretchesOfTheInput()
    ensures var w := "{a,b}{x}{c,d}"; Expand(w).Some? && Stretches(w) == [Stretch(1, 2), Stretch(1, 2)]
  {
    hide FirstGroup, Expand, Stretches;
    EmptyWord();
    PairStretch('c', 'd', "");
    LiteralStretch('x', "{" + (['c'] + "," + ['d']) + "}" + "");
    PairStretch('a', 'b', "{" + ['x'] + "}" + ("{" + (['c'] + "," + ['d']) + "}" + ""));
    assert "{" + (['a'] + "," + ['b']) + "}" + ("{" + ['x'] + "}" + ("{" + (['c'] + "," + ['d']) + "}" + "")) == "{a,b}{x}{c,d}";
  }

  lemma EmptyWord()
    ensures Expand("").Some? && Stretches("") == [Stretch(0, 1)]
  {
    ExpandByGroup("");
  }

  /** Seven choices and the limit, over the whole word, are enough to finish. */
  lemma {:induction false} WithinTheLimits(w: string, limit: int)
    requires Expand(w).Some? && Choices(w) <= 7 && |Expand(w).value| <= limit
    ensures Finishes(w, limit)
  {
    hide FirstGroup, Expand, Stretches, Total, Choices;
    var ss := Stretches(w);
    StretchesAreProper(w);
    ResultsAreTotal(w);
    ChoicesOfStretches(w);
    forall s | s in ss ensures s.choices <= 7 && s.ways <= limit {
      var i :| 0 <= i < |ss| && ss[i] == s;
      TotalAtLeast(ss, i);
    }
  }

  /** How many groups of a word offer a choice. */
  function Choices(w: string): nat
    decreases |w|
  {
    var g := FirstGroup(w);
    if g.Found? then (if g.comma then 1 else 0) + Choices(Tail(g, w)) else 0
  }

  lemma {:induction false} ChoicesOfStretches(w: string)
    ensures forall s :: s in Stretches(w) ==> s.choices <= Choices(w)
    decreases |w|
  {
    hide FirstGroup;
    var g := FirstGroup(w);
    if g.Found? {
      ChoicesOfStretches(Tail(g, w));
      assert Stretches(Tail(g, w))[0] in Stretches(Tail(g, w));
    }
  }
}
