/** Choosing the page's language from an Accept-Language header. Number parsing is a
    parameter; weights are the finite ones it returns. */
module Lang {
  import opened Options
  import Forms

  datatype Language = ZhTW | En

  const DEFAULT: Language := En

  datatype Tag = Tag(name: string, q: real, pos: nat)

  type Parser = string -> Option<real>

  // -------------------------------------------------------------------- strings

  /** The characters with Unicode's White_Space property. */
  predicate IsSpace(c: char) {
    c in {' ', '\t', '\n', '\U{0B}', '\U{0C}', '\r', '\U{85}', '\U{A0}', '\U{1680}',
          '\U{2028}', '\U{2029}', '\U{202F}', '\U{205F}', '\U{3000}'}
    || '\U{2000}' <= c <= '\U{200A}'
  }

  function TrimLeft(s: string): string {
    if s != "" && IsSpace(s[0]) then TrimLeft(s[1..]) else s
  }

  function TrimRight(s: string): string {
    if s != "" && IsSpace(s[|s| - 1]) then TrimRight(s[..|s| - 1]) else s
  }

  function Trim(s: string): string { TrimRight(TrimLeft(s)) }

  /** The parts of a string between occurrences of a separator. */
  function Split(s: string, sep: char): (parts: seq<string>)
    ensures parts != []
  {
    if s == "" then [""]
    else
      var rest := Split(s[1..], sep);
      if s[0] == sep then [""] + rest else [[s[0]] + rest[0]] + rest[1..]
  }

  /** The string before the first occurrence of a separator, and after it if there is one. */
  function Cut(s: string, sep: string): (string, Option<string>) {
    if |sep| <= |s| && s[..|sep|] == sep then ("", Some(s[|sep|..]))
    else if s == "" then ("", None)
    else
      var (before, after) := Cut(s[1..], sep);
      ([s[0]] + before, after)
  }

  // ----------------------------------------------------------------------- tags

  /** The tag a part of the header stands for, unless it is empty or refused with q=0. */
  function TagOf(part: string, pos: nat, parse: Parser): Option<Tag> {
    var trimmed := Trim(part);
    var (head, params) := Cut(trimmed, ";");
    var name := Forms.ToLower(Trim(head));
    if trimmed == "" || name == "" then None
    else
      var weight := if params.Some? then Cut(params.value, "q=").1 else None;
      var parsed := if weight.Some? then parse(Trim(weight.value)) else None;
      var q := if parsed.Some? then parsed.value else 1.0;
      if q <= 0.0 then None else Some(Tag(name, q, pos))
  }

  function Tags(parts: seq<string>, parse: Parser): seq<Tag> {
    if parts == [] then []
    else
      var n := |parts| - 1;
      var tag := TagOf(parts[n], n, parse);
      Tags(parts[..n], parse) + if tag.Some? then [tag.value] else []
  }

  function Primary(name: string): string { Cut(name, "-").0 }

  /** The language of a list of tags is that of its head. */
  function HeadLanguage(tags: seq<Tag>): Language {
    if tags != [] && tags[0].name != "*" && Primary(tags[0].name) == "zh" then ZhTW else DEFAULT
  }

  predicate Before(a: Tag, b: Tag) { a.q > b.q || (a.q == b.q && a.pos <= b.pos) }

  predicate SortedTags(tags: seq<Tag>) {
    forall i, j :: 0 <= i < j < |tags| ==> Before(tags[i], tags[j])
  }

  /** The tag of greatest weight, the earliest among equals. */
  predicate IsBest(tags: seq<Tag>, t: Tag) { t in tags && forall u :: u in tags ==> Before(t, u) }

  /** Tags come in the order of the header. */
  predicate Ascending(tags: seq<Tag>) {
    forall i, j :: 0 <= i < j < |tags| ==> tags[i].pos < tags[j].pos
  }

  lemma {:induction false} PositionsAscend(parts: seq<string>, parse: Parser)
    ensures forall t :: t in Tags(parts, parse) ==> t.pos < |parts| && t.q > 0.0
    ensures Ascending(Tags(parts, parse))
  {
    if parts != [] {
      var init := Tags(parts[..|parts| - 1], parse);
      PositionsAscend(parts[..|parts| - 1], parse);
      var tags := Tags(parts, parse);
      forall i, j | 0 <= i < j < |tags| ensures tags[i].pos < tags[j].pos {
        assert tags[i] == init[i] && init[i] in init;
        if j < |init| { assert tags[j] == init[j]; }
      }
    }
  }

  lemma BestIsUnique(tags: seq<Tag>, a: Tag, b: Tag)
    requires Ascending(tags)
    requires IsBest(tags, a) && IsBest(tags, b)
    ensures a == b
  {
    var i :| 0 <= i < |tags| && tags[i] == a;
    var j :| 0 <= j < |tags| && tags[j] == b;
    assert a.pos == b.pos;
  }

  /** The header's best tag is a Chinese one. */
  ghost predicate WantsChinese(tags: seq<Tag>) {
    exists t :: IsBest(tags, t) && t.name != "*" && Primary(t.name) == "zh"
  }

  /** What the language choice returns. */
  ghost function LanguageOf(header: string, parse: Parser): Language {
    if WantsChinese(Tags(Split(header, ','), parse)) then ZhTW else DEFAULT
  }

  /** A tag after a part has been put in front of it. */
  function Moved(t: Tag, i: nat): Tag { if t.pos >= i then t.(pos := t.pos + 1) else t }

  /** Putting a part into a header moves the later tags by one and adds its own, if it has one. */
  lemma {:induction false} TagsWithOneMore(parts: seq<string>, extra: string, i: nat, parse: Parser, t: Tag)
    requires i <= |parts|
    ensures t in Tags(parts[..i] + [extra] + parts[i..], parse)
            <==> TagOf(extra, i, parse) == Some(t) || exists u :: u in Tags(parts, parse) && t == Moved(u, i)
    decreases |parts|
  {
    hide TagOf;
    var more := parts[..i] + [extra] + parts[i..];
    if i == |parts| {
      PositionsAscend(parts, parse);
      assert more[..|more| - 1] == parts;
      assert forall u :: u in Tags(parts, parse) ==> Moved(u, i) == u;
    } else {
      var n := |parts| - 1;
      var init := parts[..n];
      assert more[..|more| - 1] == init[..i] + [extra] + init[i..];
      TagsWithOneMore(init, extra, i, parse, t);
      TagMoves(parts[n], n, i, parse);
      var last := TagOf(parts[n], n, parse);
      assert forall u :: u in Tags(parts, parse) <==> u in Tags(init, parse) || last == Some(u);
    }
  }

  lemma TagMoves(part: string, n: nat, i: nat, parse: Parser)
    requires n >= i
    ensures var tag := TagOf(part, n, parse);
            TagOf(part, n + 1, parse) == if tag.Some? then Some(Moved(tag.value, i)) else None
  {
  }

  /** A part of the header that does not come before the best tag, wherever it is put in,
      changes no choice. */
  lemma LowerRankedTagsNeverMatter(header: string, longer: string, extra: string, i: nat, parse: Parser, best: Tag)
    requires var parts := Split(header, ',');
             i <= |parts| && Split(longer, ',') == parts[..i] + [extra] + parts[i..] && IsBest(Tags(parts, parse), best)
    requires var added := TagOf(extra, i, parse); added.Some? ==> Before(Moved(best, i), added.value)
    ensures LanguageOf(longer, parse) == LanguageOf(header, parse)
  {
    var parts, more := Split(header, ','), Split(longer, ',');
    var b := Moved(best, i);
    TagsWithOneMore(parts, extra, i, parse, b);
    forall u | u in Tags(more, parse) ensures Before(b, u) { TagsWithOneMore(parts, extra, i, parse, u); }
    PositionsAscend(parts, parse);
    PositionsAscend(more, parse);
    forall t | IsBest(Tags(parts, parse), t) ensures t == best { BestIsUnique(Tags(parts, parse), t, best); }
    forall t | IsBest(Tags(more, parse), t) ensures t == b { BestIsUnique(Tags(more, parse), t, b); }
  }

  // ------------------------------------------------------------------ the choice

  /** Puts a later tag in its place. */
  method Place(sorted: seq<Tag>, t: Tag) returns (more: seq<Tag>)
    requires SortedTags(sorted) && forall i :: 0 <= i < |sorted| ==> sorted[i].pos < t.pos
    ensures SortedTags(more) && multiset(more) == multiset(sorted) + multiset{t}
  {
    var k := |sorted|;
    while k > 0 && sorted[k - 1].q < t.q
      invariant 0 <= k <= |sorted|
      invariant forall j :: k <= j < |sorted| ==> sorted[j].q < t.q
    {
      k := k - 1;
    }
    forall j | 0 <= j < k ensures sorted[j].q >= t.q {
      assert j == k - 1 || Before(sorted[j], sorted[k - 1]);
    }
    PlaceKeepsOrder(sorted, t, k);
    more := sorted[..k] + [t] + sorted[k..];
  }

  lemma PlaceKeepsOrder(sorted: seq<Tag>, t: Tag, k: nat)
    requires SortedTags(sorted) && k <= |sorted|
    requires forall j :: 0 <= j < k ==> sorted[j].q >= t.q && sorted[j].pos < t.pos
    requires forall j :: k <= j < |sorted| ==> sorted[j].q < t.q
    ensures var more := sorted[..k] + [t] + sorted[k..];
            SortedTags(more) && multiset(more) == multiset(sorted) + multiset{t}
  {
    var front, back := sorted[..k], sorted[k..];
    var more := front + [t] + back;
    assert sorted == front + back;
    forall i, j | 0 <= i < j < |more| ensures Before(more[i], more[j]) {
      var i' := if i < k then i else i - 1;
      var j' := if j < k then j else j - 1;
      if i == k {
        assert more[j] == sorted[j'];
      } else if j == k {
        assert more[i] == sorted[i'];
      } else {
        assert more[i] == sorted[i'] && more[j] == sorted[j'] && Before(sorted[i'], sorted[j']);
      }
    }
  }

  /** Sorts by weight, greatest first, keeping the header's order among equals. */
  method SortStable(tags: seq<Tag>) returns (sorted: seq<Tag>)
    requires Ascending(tags)
    ensures SortedTags(sorted) && multiset(sorted) == multiset(tags)
  {
    sorted := [];
    for n := 0 to |tags|
      invariant SortedTags(sorted) && multiset(sorted) == multiset(tags[..n])
    {
      forall i | 0 <= i < |sorted| ensures sorted[i].pos < tags[n].pos {
        assert sorted[i] in multiset(tags[..n]);
      }
      assert tags[..n + 1] == tags[..n] + [tags[n]];
      sorted := Place(sorted, tags[n]);
    }
    assert tags[..|tags|] == tags;
  }

  /** Picks the language: Chinese exactly when the best tag of the header is a Chinese one. */
  method Match(header: string, parse: Parser) returns (lang: Language)
    ensures lang == LanguageOf(header, parse)
  {
    var parts := Split(header, ',');
    var tags := [];
    for i := 0 to |parts|
      invariant tags == Tags(parts[..i], parse)
    {
      assert parts[..i + 1][..i] == parts[..i];
      var tag := TagOf(parts[i], i, parse);
      if tag.Some? {
        tags := tags + [tag.value];
      }
    }
    assert parts[..|parts|] == parts;
    PositionsAscend(parts, parse);
    var sorted := SortStable(tags);
    forall t ensures t in sorted <==> t in tags {
      assert t in multiset(sorted) <==> t in multiset(tags);
    }
    lang := HeadLanguage(sorted);
    if sorted != [] {
      assert IsBest(tags, sorted[0]) by {
        forall u | u in tags ensures Before(sorted[0], u) {
          var i :| 0 <= i < |sorted| && sorted[i] == u;
        }
      }
      forall t | IsBest(tags, t) ensures t == sorted[0] { BestIsUnique(tags, t, sorted[0]); }
    }
  }
}
