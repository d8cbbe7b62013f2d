/** Reading Accept-Language headers back: what splitting, cutting and trimming do, and that a
    well-formed header means the preferences it was written from. */
module Headers {
  import opened Options
  import opened Lang
  import Forms

  // ---------------------------------------------------------------------- splitting

  /** Parts with a separator between them. */
  function Join(parts: seq<string>, sep: char): string
    requires parts != []
  {
    if |parts| == 1 then parts[0] else parts[0] + [sep] + Join(parts[1..], sep)
  }

  lemma {:induction false} SplitFirst(part: string, sep: char, rest: string)
    requires sep !in part
    ensures Split(part, sep) == [part]
    ensures Split(part + [sep] + rest, sep) == [part] + Split(rest, sep)
  {
    if part == "" {
      assert ("" + [sep] + rest)[1..] == rest;
    } else {
      SplitFirst(part[1..], sep, rest);
      assert (part + [sep] + rest)[1..] == part[1..] + [sep] + rest;
      assert part == [part[0]] + part[1..];
    }
  }

  /** Splitting undoes joining. */
  lemma {:induction false} SplitOfJoin(parts: seq<string>, sep: char)
    requires parts != [] && forall p :: p in parts ==> sep !in p
    ensures Split(Join(parts, sep), sep) == parts
  {
    if |parts| == 1 {
      SplitFirst(parts[0], sep, "");
    } else {
      assert parts[0] in parts;
      SplitFirst(parts[0], sep, Join(parts[1..], sep));
      SplitOfJoin(parts[1..], sep);
    }
  }

  /** Joining undoes splitting, and no part holds a separator. */
  lemma {:induction false} JoinOfSplit(s: string, sep: char)
    ensures Join(Split(s, sep), sep) == s && forall p :: p in Split(s, sep) ==> sep !in p
  {
    if s != "" {
      JoinOfSplit(s[1..], sep);
      var rest := Split(s[1..], sep);
      var parts := Split(s, sep);
      if s[0] == sep {
        assert parts[1..] == rest;
      } else {
        assert parts[1..] == rest[1..];
        assert rest[0] in rest;
      }
      assert s == [s[0]] + s[1..];
    }
  }

  // ------------------------------------------------------------------------ cutting

  lemma OccursLater(s: string, part: string, i: int)
    requires s != "" && i > 0
    ensures Forms.OccursAt(s, part, i) <==> Forms.OccursAt(s[1..], part, i - 1)
  {
    if 0 <= i <= |s| - |part| { assert s[1..][i - 1..i - 1 + |part|] == s[i..i + |part|]; }
  }

  lemma Prepend(c: char, a: string, b: string, d: string)
    ensures [c] + (a + b + d) == ([c] + a) + b + d
  {
  }

  /** A string is cut around the first occurrence of the separator, and left whole if there is
      none. */
  lemma {:induction false} CutIsTheFirst(s: string, sep: string)
    requires sep != ""
    ensures var (before, after) := Cut(s, sep);
            if after.Some?
            then s == before + sep + after.value && forall i :: 0 <= i < |before| ==> !Forms.OccursAt(s, sep, i)
            else before == s && forall i :: !Forms.OccursAt(s, sep, i)
  {
    if |sep| <= |s| && s[..|sep|] == sep {
      assert s == sep + s[|sep|..];
    } else if s != "" {
      assert !Forms.OccursAt(s, sep, 0);
      assert forall i :: i < 0 ==> !Forms.OccursAt(s, sep, i);
      hide Forms.OccursAt;
      CutIsTheFirst(s[1..], sep);
      forall i | i > 0 ensures Forms.OccursAt(s, sep, i) <==> Forms.OccursAt(s[1..], sep, i - 1) {
        OccursLater(s, sep, i);
      }
      var (before, after) := Cut(s[1..], sep);
      assert s == [s[0]] + s[1..];
      if after.Some? { Prepend(s[0], before, sep, after.value); }
    }
  }

  /** A separator that begins with a character the front does not hold is found behind it. */
  lemma CutBehind(before: string, sep: string, after: string)
    requires sep != "" && sep[0] !in before
    ensures Cut(before + sep + after, sep) == (before, Some(after))
  {
    var s := before + sep + after;
    CutIsTheFirst(s, sep);
    assert s[|before|..|before| + |sep|] == sep;
    assert Forms.OccursAt(s, sep, |before|);
    var (front, back) := Cut(s, sep);
    assert |front| <= |before|;
    assert s[|front|] == sep[0];
    assert s[..|front|] == front && s[..|before|] == before;
    assert s[|before| + |sep|..] == after;
  }

  lemma CutNothing(s: string, sep: string)
    requires sep != "" && sep[0] !in s
    ensures Cut(s, sep) == (s, None)
  {
    CutIsTheFirst(s, sep);
  }

  // ----------------------------------------------------------------------- trimming

  predicate Blank(s: string) { forall c :: c in s ==> IsSpace(c) }

  predicate Tight(s: string) { s != "" && !IsSpace(s[0]) && !IsSpace(s[|s| - 1]) }

  lemma {:induction false} TrimLeftPads(pad: string, s: string)
    requires Blank(pad) && (s == "" || !IsSpace(s[0]))
    ensures TrimLeft(pad + s) == s
  {
    hide IsSpace;
    if pad == "" {
      assert pad + s == s;
    } else {
      assert pad[0] in pad;
      assert (pad + s)[1..] == pad[1..] + s;
      TrimLeftPads(pad[1..], s);
    }
  }

  lemma {:induction false} TrimRightPads(s: string, pad: string)
    requires Blank(pad) && (s == "" || !IsSpace(s[|s| - 1]))
    ensures TrimRight(s + pad) == s
  {
    hide IsSpace;
    if pad == "" {
      assert s + pad == s;
    } else {
      assert pad[|pad| - 1] in pad;
      assert (s + pad)[..|s + pad| - 1] == s + pad[..|pad| - 1];
      TrimRightPads(s, pad[..|pad| - 1]);
    }
  }

  /** Trimming takes the white space around a string and nothing else. */
  lemma TrimPads(left: string, s: string, right: string)
    requires Blank(left) && Blank(right) && (s == "" || Tight(s))
    ensures Trim(left + s + right) == s
  {
    hide IsSpace;
    if s == "" {
      assert left + s + right == (left + right) + "";
      TrimLeftPads(left + right, "");
    } else {
      assert left + s + right == left + (s + right);
      assert (s + right)[0] == s[0];
      TrimLeftPads(left, s + right);
      TrimRightPads(s, right);
    }
  }

  // ------------------------------------------------------------ preferences as headers

  /** A weight as it is written: `;`, white space, `q=`, white space, a number. */
  datatype Weight = Weight(before: string, between: string, number: string)

  /** A preference as it is written, with white space wherever the header may have it. */
  datatype Offer = Offer(left: string, name: string, gap: string, weight: Option<Weight>, right: string)

  predicate WellFormed(o: Offer) {
    && Blank(o.left) && Blank(o.gap) && Blank(o.right)
    && Tight(o.name) && ',' !in o.name && ';' !in o.name
    && (o.weight.Some? ==>
          var w := o.weight.value;
          Blank(w.before) && Blank(w.between) && Tight(w.number) && ',' !in w.number)
  }

  function Core(o: Offer): string {
    if o.weight.None? then o.name
    else o.name + o.gap + ";" + (o.weight.value.before + "q=" + (o.weight.value.between + o.weight.value.number))
  }

  function Written(o: Offer): string {
    o.left + Core(o) + (if o.weight.None? then o.gap + o.right else o.right)
  }

  /** The weight it stands for: one, unless it has a number that reads. */
  function WeightOf(o: Offer, parse: Parser): real {
    if o.weight.Some? && parse(o.weight.value.number).Some? then parse(o.weight.value.number).value else 1.0
  }

  lemma BlankHasNo(s: string, c: char)
    requires Blank(s) && !IsSpace(c)
    ensures c !in s
  {
  }

  lemma SeparatorsAreNotSpace()
    ensures !IsSpace(',') && !IsSpace(';') && !IsSpace('q') && !IsSpace('=')
  {
  }

  lemma CoreIsTight(o: Offer)
    requires WellFormed(o)
    ensures Tight(Core(o)) && ',' !in Core(o)
  {
    hide IsSpace;
    SeparatorsAreNotSpace();
    var core := Core(o);
    assert core[0] == o.name[0];
    BlankHasNo(o.gap, ',');
    if o.weight.Some? {
      var w := o.weight.value;
      BlankHasNo(w.before, ',');
      BlankHasNo(w.between, ',');
      assert core[|core| - 1] == w.number[|w.number| - 1];
    }
  }

  lemma {:induction false} LowerNeverVanishes(s: string)
    ensures Forms.ToLower(s) == "" <==> s == ""
  {
    assert |Forms.ToLower(s)| == |s|;
  }

  /** A written preference is read as its lower-cased name with its weight, and as nothing when
      the weight is not positive. */
  lemma OfferReadsBack(o: Offer, pos: nat, parse: Parser)
    requires WellFormed(o)
    ensures TagOf(Written(o), pos, parse) ==
            if WeightOf(o, parse) > 0.0 then Some(Tag(Forms.ToLower(o.name), WeightOf(o, parse), pos)) else None
  {
    hide IsSpace, Trim, Cut, Split, Forms.ToLower;
    SeparatorsAreNotSpace();
    CoreIsTight(o);
    assert Blank(if o.weight.None? then o.gap + o.right else o.right);
    TrimPads(o.left, Core(o), if o.weight.None? then o.gap + o.right else o.right);
    LowerNeverVanishes(o.name);
    assert "" + o.name + "" == o.name && "" + o.name + o.gap == o.name + o.gap;
    if o.weight.None? {
      CutNothing(o.name, ";");
      TrimPads("", o.name, "");
    } else {
      var w := o.weight.value;
      BlankHasNo(o.gap, ';');
      BlankHasNo(w.before, 'q');
      CutBehind(o.name + o.gap, ";", w.before + "q=" + (w.between + w.number));
      TrimPads("", o.name, o.gap);
      CutBehind(w.before, "q=", w.between + w.number);
      assert w.between + w.number + "" == w.between + w.number;
      TrimPads(w.between, w.number, "");
    }
  }

  /** A header is written preferences between commas. */
  function Parts(offers: seq<Offer>): (parts: seq<string>)
    ensures |parts| == |offers|
  {
    if offers == [] then [] else Parts(offers[..|offers| - 1]) + [Written(offers[|offers| - 1])]
  }

  function Header(offers: seq<Offer>): string
    requires offers != []
  {
    Join(Parts(offers), ',')
  }

  lemma {:induction false} PartsHaveNoComma(offers: seq<Offer>)
    requires forall o :: o in offers ==> WellFormed(o)
    ensures forall p :: p in Parts(offers) ==> ',' !in p
  {
    if offers != [] {
      var last := offers[|offers| - 1];
      assert last in offers;
      PartsHaveNoComma(offers[..|offers| - 1]);
      SeparatorsAreNotSpace();
      CoreIsTight(last);
      BlankHasNo(last.left, ',');
      BlankHasNo(last.gap, ',');
      BlankHasNo(last.right, ',');
    }
  }

  /** The preferences that stand for a tag, in their order. */
  function Meant(offers: seq<Offer>, parse: Parser): seq<Tag> {
    if offers == [] then []
    else
      var n := |offers| - 1;
      Meant(offers[..n], parse)
        + if WeightOf(offers[n], parse) > 0.0
          then [Tag(Forms.ToLower(offers[n].name), WeightOf(offers[n], parse), n)] else []
  }

  lemma {:induction false} PartsReadBack(offers: seq<Offer>, parse: Parser)
    requires forall o :: o in offers ==> WellFormed(o)
    ensures Tags(Parts(offers), parse) == Meant(offers, parse)
  {
    hide TagOf, Written, WeightOf, WellFormed;
    if offers != [] {
      var n := |offers| - 1;
      assert offers[n] in offers;
      PartsReadBack(offers[..n], parse);
      OfferReadsBack(offers[n], n, parse);
      assert Parts(offers)[..n] == Parts(offers[..n]);
    }
  }

  /** A well-formed header is read as the preferences it was written from. */
  lemma HeaderReadsBack(offers: seq<Offer>, parse: Parser)
    requires offers != [] && forall o :: o in offers ==> WellFormed(o)
    ensures Tags(Split(Header(offers), ','), parse) == Meant(offers, parse)
  {
    PartsHaveNoComma(offers);
    SplitOfJoin(Parts(offers), ',');
    PartsReadBack(offers, parse);
  }

  // --------------------------------------------------------------------- the choice

  /** The name is `zh` or begins with `zh-`, in any case. */
  predicate IsChinese(name: string) {
    var lower := Forms.ToLower(name);
    lower == "zh" || (|lower| > 2 && lower[..3] == "zh-")
  }

  lemma PrimaryIsChinese(name: string)
    ensures Primary(name) == "zh" <==> name == "zh" || (|name| > 2 && name[..3] == "zh-")
  {
    CutIsTheFirst(name, "-");
    if name == "zh" { CutNothing(name, "-"); }
    if |name| > 2 && name[..3] == "zh-" {
      assert name == "zh" + "-" + name[3..];
      CutBehind("zh", "-", name[3..]);
    }
  }

  /** A preference that outranks every other: greater weight, or the same and written first. */
  predicate Prevails(offers: seq<Offer>, parse: Parser, i: int) {
    0 <= i < |offers| && WeightOf(offers[i], parse) > 0.0
    && forall j :: 0 <= j < |offers| ==>
         var p, q := WeightOf(offers[i], parse), WeightOf(offers[j], parse);
         q < p || (q == p && i <= j)
  }

  lemma {:induction false} MeantMembers(offers: seq<Offer>, parse: Parser, t: Tag)
    ensures t in Meant(offers, parse) <==>
            t.pos < |offers| && WeightOf(offers[t.pos], parse) > 0.0
            && t == Tag(Forms.ToLower(offers[t.pos].name), WeightOf(offers[t.pos], parse), t.pos)
  {
    hide WeightOf, Forms.ToLower;
    if offers != [] { MeantMembers(offers[..|offers| - 1], parse, t); }
  }

  /** From a well-formed header Chinese is chosen exactly when the preference that outranks all
      others is a Chinese one. */
  lemma ChineseExactlyWhenItPrevails(offers: seq<Offer>, parse: Parser)
    requires offers != [] && forall o :: o in offers ==> WellFormed(o)
    ensures LanguageOf(Header(offers), parse) == ZhTW <==>
            exists i :: Prevails(offers, parse, i) && IsChinese(offers[i].name)
  {
    hide Header, Primary, WeightOf, Split, Tags, WellFormed, Forms.ToLower;
    HeaderReadsBack(offers, parse);
    var tags := Meant(offers, parse);
    forall t { MeantMembers(offers, parse, t); }
    if t :| IsBest(tags, t) && t.name != "*" && Primary(t.name) == "zh" {
      PrimaryIsChinese(t.name);
      forall j | 0 <= j < |offers|
        ensures var p, q := WeightOf(offers[t.pos], parse), WeightOf(offers[j], parse); q < p || (q == p && t.pos <= j)
      {
        if WeightOf(offers[j], parse) > 0.0 {
          assert Tag(Forms.ToLower(offers[j].name), WeightOf(offers[j], parse), j) in tags;
        }
      }
      assert Prevails(offers, parse, t.pos);
    }
    if i :| Prevails(offers, parse, i) && IsChinese(offers[i].name) {
      var t := Tag(Forms.ToLower(offers[i].name), WeightOf(offers[i], parse), i);
      PrimaryIsChinese(t.name);
      assert t in tags;
      forall u | u in tags ensures Before(t, u) { assert u.pos < |offers|; }
      assert IsBest(tags, t);
    }
  }
}
