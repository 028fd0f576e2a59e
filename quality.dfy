/**
 * The label parsing and the selection policy of setQuality in content/applyPreset.js:
 * quality menu labels are parsed into resolutions, and a target ("max", "auto" or a number)
 * is resolved against the labels of the quality submenu to the index of the item to click.
 */
module Quality {
  import opened Wrappers
  import opened JsText

  /** The match of /(\d{3,4})p/ anchored at position i, with its captured number: the greedy
      quantifier tries four digits before three. */
  function MatchAt(s: string, i: nat): Option<nat>
  {
    if i + 5 <= |s| && AllDigits(s[i..i + 4]) && s[i + 4] == 'p' then Some(DigitsValue(s[i..i + 4]))
    else if i + 4 <= |s| && AllDigits(s[i..i + 3]) && s[i + 3] == 'p' then Some(DigitsValue(s[i..i + 3]))
    else None
  }

  /** The leftmost position at or after i where /(\d{3,4})p/ matches. */
  function FirstMatch(s: string, i: nat): (k: Option<nat>)
    ensures k.Some? ==> i <= k.value < |s| && MatchAt(s, k.value).Some?
    ensures k.Some? ==> forall j :: i <= j < k.value ==> MatchAt(s, j).None?
    ensures k.None? ==> forall j :: i <= j ==> MatchAt(s, j).None?
    decreases |s| - i
  {
    if i >= |s| then None else if MatchAt(s, i).Some? then Some(i) else FirstMatch(s, i + 1)
  }

  /** parseQualityNumber: the number of the first run of three or four digits immediately
      followed by 'p', or None (null in the source). */
  function ParseQualityNumber(text: string): (r: Option<nat>)
    ensures r.None? <==> forall j :: 0 <= j < |text| ==> MatchAt(text, j).None?
    ensures r.Some? ==> r.value < 10000
    ensures r.Some? ==> exists k :: 0 <= k < |text| && MatchAt(text, k) == r
                                    && forall j :: 0 <= j < k ==> MatchAt(text, j).None?
  {
    match FirstMatch(text, 0)
    case None => None
    case Some(k) =>
      DigitsBound(text, k);
      MatchAt(text, k)
  }

  lemma DigitsBound(s: string, k: nat)
    ensures MatchAt(s, k).Some? ==> MatchAt(s, k).value < 10000
  {
    if k + 5 <= |s| && AllDigits(s[k..k + 4]) && s[k + 4] == 'p' {
      DigitsValueBound(s[k..k + 4]);
      assert Pow10(4) == 10000;
    } else if k + 4 <= |s| && AllDigits(s[k..k + 3]) && s[k + 3] == 'p' {
      DigitsValueBound(s[k..k + 3]);
      assert Pow10(3) == 1000;
    }
  }

  lemma Decimal1080()
    ensures Decimal(1080) == "1080"
  {
    assert DigitChar(1) == '1' && DigitChar(0) == '0' && DigitChar(8) == '8';
    assert Decimal(1) == "1";
    assert Decimal(10) == "1" + "0";
    assert Decimal(108) == "10" + "8";
    assert Decimal(1080) == "108" + "0";
  }

  /** The first label the source's own comment names: "1080p60" parses to 1080. */
  lemma ParseQualityNumberFrameRate()
    ensures ParseQualityNumber("1080p60") == Some(1080)
  {
    Decimal1080();
    ParseAfterPrefix("", 1080, "60");
    assert "" + Decimal(1080) + "p" + "60" == "1080p60";
  }

  /** The second label the source's own comment names: "Auto (1080p)" parses to 1080. */
  lemma ParseQualityNumberAuto()
    ensures ParseQualityNumber("Auto (1080p)") == Some(1080)
  {
    AutoPrefix();
    ParseAfterPrefix("Auto (", 1080, ")");
    AutoLabel();
  }

  lemma AutoPrefix()
    ensures forall i :: 0 <= i < |"Auto ("| ==> !IsDigit("Auto ("[i])
  {
    var pre := "Auto (";
    forall i | 0 <= i < |pre| ensures !IsDigit(pre[i]) {
      assert pre[i] in {'A', 'u', 't', 'o', ' ', '('};
    }
  }

  lemma AutoLabel()
    ensures "Auto (" + Decimal(1080) + "p" + ")" == "Auto (1080p)"
  {
    Decimal1080();
  }

  /** A number of three or four digits written right before a 'p', after a prefix without
      digits, is what parseQualityNumber returns, whatever follows. */
  lemma ParseAfterPrefix(pre: string, n: nat, rest: string)
    requires 100 <= n < 10000
    requires forall i :: 0 <= i < |pre| ==> !IsDigit(pre[i])
    ensures ParseQualityNumber(pre + Decimal(n) + "p" + rest) == Some(n)
  {
    var d := Decimal(n);
    var s := pre + d + "p" + rest;
    NoMatchInPrefix(pre, d + "p" + rest);
    assert s == pre + (d + "p" + rest);
    DecimalLength(n);
    DecimalRoundTrip(n);
    assert s[|pre|..|pre| + |d|] == d && s[|pre| + |d|] == 'p';
    MatchAtDigits(s, |pre|, d);
  }

  lemma NoMatchInPrefix(pre: string, t: string)
    requires forall i :: 0 <= i < |pre| ==> !IsDigit(pre[i])
    ensures forall j :: 0 <= j < |pre| ==> MatchAt(pre + t, j).None?
  {
    forall j | 0 <= j < |pre| ensures MatchAt(pre + t, j).None? {
      assert (pre + t)[j] == pre[j];
      NoMatchAtNonDigit(pre + t, j);
    }
  }

  lemma NoMatchAtNonDigit(s: string, j: nat)
    requires j < |s| && !IsDigit(s[j])
    ensures MatchAt(s, j).None?
  {
    assert j + 4 <= |s| ==> s[j..j + 3][0] == s[j];
    assert j + 5 <= |s| ==> s[j..j + 4][0] == s[j];
  }

  lemma MatchAtDigits(s: string, k: nat, d: string)
    requires AllDigits(d) && (|d| == 3 || |d| == 4)
    requires k + |d| < |s| && s[k..k + |d|] == d && s[k + |d|] == 'p'
    ensures MatchAt(s, k) == Some(DigitsValue(d))
  {
    if |d| == 3 {
      assert k + 5 <= |s| ==> s[k..k + 4][3] == 'p';
    }
  }

  /** The resolution setQuality reads off a submenu item: parseQualityNumber of the trimmed
      text, where both null and 0 (falsy in the source's filter) count as "no resolution", 0. */
  function Resolution(text: string): (q: nat)
    ensures q < 10000
  {
    match ParseQualityNumber(Trim(text))
    case None => 0
    case Some(v) => v
  }

  /** The isAuto flag of a submenu item: /Auto/i on its trimmed text. */
  predicate IsAutoItem(text: string) {
    ContainsIgnoreCase(Trim(text), "auto")
  }

  /** A root settings menu entry that names the quality submenu: /Quality/i. */
  predicate IsQualityTitle(text: string) {
    ContainsIgnoreCase(text, "quality")
  }

  /** A root settings menu entry that shows a resolution: /\d{3,4}p/. */
  predicate ShowsResolution(text: string) {
    ParseQualityNumber(text).Some?
  }

  /** Array.prototype.find over the labels from index `from` on: the first index whose label satisfies p. */
  function FindLabel(labels: seq<string>, p: string -> bool, from: nat): (r: Option<nat>)
    ensures r.Some? ==> from <= r.value < |labels| && p(labels[r.value])
    ensures r.Some? ==> forall j :: from <= j < r.value ==> !p(labels[j])
    ensures r.None? ==> forall j :: from <= j < |labels| ==> !p(labels[j])
    decreases |labels| - from
  {
    if from >= |labels| then None
    else if p(labels[from]) then Some(from)
    else FindLabel(labels, p, from + 1)
  }

  /** The root menu entry setQuality opens: the first entry titled "Quality" (any case), or
      failing that the first entry that shows a resolution. */
  function FindQualityEntry(root: seq<string>): (r: Option<nat>)
    ensures r.Some? ==> r.value < |root| && (IsQualityTitle(root[r.value]) || ShowsResolution(root[r.value]))
    ensures r.None? <==> forall j :: 0 <= j < |root| ==> !IsQualityTitle(root[j]) && !ShowsResolution(root[j])
    ensures (exists j :: 0 <= j < |root| && IsQualityTitle(root[j])) ==>
              r.Some? && IsQualityTitle(root[r.value]) && forall j :: 0 <= j < r.value ==> !IsQualityTitle(root[j])
    ensures (forall j :: 0 <= j < |root| ==> !IsQualityTitle(root[j])) && r.Some? ==>
              forall j :: 0 <= j < r.value ==> !ShowsResolution(root[j])
  {
    match FindLabel(root, IsQualityTitle, 0)
    case Some(i) => Some(i)
    case None => FindLabel(root, ShowsResolution, 0)
  }

  /** One entry of the source's `mapped` list: the item's resolution (0 for none) and its isAuto flag. */
  datatype Item = Item(q: nat, isAuto: bool)

  /** options.map(...): the resolution and the Auto flag of every submenu item, in menu order. */
  function Mapped(labels: seq<string>): (m: seq<Item>)
    ensures |m| == |labels|
    ensures forall i :: 0 <= i < |labels| ==> m[i] == Item(Resolution(labels[i]), IsAutoItem(labels[i]))
  {
    seq(|labels|, i requires 0 <= i < |labels| => Item(Resolution(labels[i]), IsAutoItem(labels[i])))
  }

  /** mapped.find(m => m.isAuto) from index `from` on. */
  function FindAuto(m: seq<Item>, from: nat): (r: Option<nat>)
    ensures r.Some? ==> from <= r.value < |m| && m[r.value].isAuto
    ensures r.Some? ==> forall j :: from <= j < r.value ==> !m[j].isAuto
    ensures r.None? ==> forall j :: from <= j < |m| ==> !m[j].isAuto
    decreases |m| - from
  {
    if from >= |m| then None
    else if m[from].isAuto then Some(from)
    else FindAuto(m, from + 1)
  }

  /** An entry of the source's onlyNum list: the item's index in the submenu and its resolution. */
  datatype Candidate = Candidate(index: nat, q: nat)

  predicate Increasing(c: seq<Candidate>) {
    forall i, j :: 0 <= i < j < |c| ==> c[i].index < c[j].index
  }

  /** mapped.filter(m => m.q): the items from index `from` on that have a resolution, in menu order. */
  function Numeric(m: seq<Item>, from: nat): (c: seq<Candidate>)
    ensures forall x :: x in c ==> from <= x.index < |m| && x.q == m[x.index].q && x.q > 0
    ensures forall j :: from <= j < |m| && m[j].q > 0 ==> Candidate(j, m[j].q) in c
    ensures Increasing(c)
    decreases |m| - from
  {
    if from >= |m| then []
    else if m[from].q > 0 then [Candidate(from, m[from].q)] + Numeric(m, from + 1)
    else Numeric(m, from + 1)
  }

  /** The order of the stable descending sort: higher resolution first, menu order among equals. */
  predicate Before(a: Candidate, b: Candidate) {
    a.q > b.q || (a.q == b.q && a.index < b.index)
  }

  predicate SortedDesc(s: seq<Candidate>) {
    forall i, j :: 0 <= i < j < |s| ==> Before(s[i], s[j])
  }

  /** Inserts x in front of the first element whose resolution is not higher than x's. */
  function Insert(x: Candidate, s: seq<Candidate>): (r: seq<Candidate>)
    ensures multiset(r) == multiset(s) + multiset{x}
  {
    if s == [] || x.q >= s[0].q then [x] + s
    else
      assert s == [s[0]] + s[1..];
      [s[0]] + Insert(x, s[1..])
  }

  /** .sort((a, b) => b.q - a.q): the stable sort by descending resolution (insertion sort). */
  function SortDesc(c: seq<Candidate>): (r: seq<Candidate>)
    ensures multiset(r) == multiset(c)
  {
    if c == [] then []
    else
      assert c == [c[0]] + c[1..];
      Insert(c[0], SortDesc(c[1..]))
  }

  /** The source's onlyNum list. */
  function OnlyNumeric(m: seq<Item>): seq<Candidate> {
    SortDesc(Numeric(m, 0))
  }

  lemma {:induction false} InsertSorted(x: Candidate, s: seq<Candidate>)
    requires SortedDesc(s)
    requires forall c :: c in s ==> x.index < c.index
    ensures SortedDesc(Insert(x, s))
  {
    if s == [] || x.q >= s[0].q {
      var r := [x] + s;
      forall i, j | 0 <= i < j < |r| ensures Before(r[i], r[j]) {
        assert r[j] == s[j - 1];
        if i > 0 {
          assert r[i] == s[i - 1];
        } else {
          assert s[j - 1] in s;
          if j - 1 > 0 { assert Before(s[0], s[j - 1]); }
        }
      }
    } else {
      InsertSorted(x, s[1..]);
      var t := Insert(x, s[1..]);
      var r := [s[0]] + t;
      forall i, j | 0 <= i < j < |r| ensures Before(r[i], r[j]) {
        assert r[j] == t[j - 1];
        if i > 0 {
          assert r[i] == t[i - 1];
        } else {
          assert t[j - 1] in multiset(t);
          if t[j - 1] != x {
            assert t[j - 1] in multiset(s[1..]);
            var k :| 0 <= k < |s[1..]| && s[1..][k] == t[j - 1];
            assert s[k + 1] == t[j - 1];
          }
        }
      }
    }
  }

  lemma {:induction false} SortDescSorted(c: seq<Candidate>)
    requires Increasing(c)
    ensures SortedDesc(SortDesc(c))
  {
    if c != [] {
      var t := SortDesc(c[1..]);
      SortDescSorted(c[1..]);
      forall y | y in t ensures c[0].index < y.index {
        assert y in multiset(t);
        assert y in multiset(c[1..]);
        var k :| 0 <= k < |c[1..]| && c[1..][k] == y;
        assert c[k + 1] == y;
      }
      InsertSorted(c[0], t);
    }
  }

  /** onlyNum is sorted by descending resolution, menu order among equals, and holds exactly
      the items that have a resolution. */
  lemma OnlyNumericMembers(m: seq<Item>)
    ensures SortedDesc(OnlyNumeric(m))
    ensures forall x :: x in OnlyNumeric(m) ==> x.index < |m| && x.q == m[x.index].q && x.q > 0
    ensures forall j :: 0 <= j < |m| && m[j].q > 0 ==> Candidate(j, m[j].q) in OnlyNumeric(m)
  {
    var c := Numeric(m, 0);
    SortDescSorted(c);
    forall x ensures x in OnlyNumeric(m) <==> x in c {
      assert x in OnlyNumeric(m) <==> x in multiset(OnlyNumeric(m));
    }
  }

  /** The three tests that setQuality's find calls make on onlyNum: equal to the target,
      below the target (both false for a NaN target), and any item at all (onlyNum[0]). */
  datatype Filter = EqualTo(n: Option<int>) | Below(n: Option<int>) | AnyResolution

  predicate Accepts(f: Filter, q: nat) {
    match f
    case EqualTo(n) => n == Some(q as int)
    case Below(n) => n.Some? && q < n.value
    case AnyResolution => true
  }

  /** onlyNum.find(...) from position `from` on, as a position in the list. */
  function FindFirst(s: seq<Candidate>, f: Filter, from: nat): (k: Option<nat>)
    ensures k.Some? ==> from <= k.value < |s| && Accepts(f, s[k.value].q)
    ensures k.Some? ==> forall j :: from <= j < k.value ==> !Accepts(f, s[j].q)
    ensures k.None? ==> forall j :: from <= j < |s| ==> !Accepts(f, s[j].q)
    decreases |s| - from
  {
    if from >= |s| then None
    else if Accepts(f, s[from].q) then Some(from)
    else FindFirst(s, f, from + 1)
  }

  function Or<T>(a: Option<T>, b: Option<T>): Option<T> {
    if a.Some? then a else b
  }

  /** Some item of the submenu has a resolution that f accepts. */
  ghost predicate HasWhere(m: seq<Item>, f: Filter) {
    exists j :: 0 <= j < |m| && m[j].q > 0 && Accepts(f, m[j].q)
  }

  /** Item k has the highest resolution among the items whose resolution f accepts, and is the
      first such item in menu order. */
  ghost predicate IsBestWhere(m: seq<Item>, k: nat, f: Filter) {
    && k < |m| && m[k].q > 0 && Accepts(f, m[k].q)
    && (forall j :: 0 <= j < |m| && m[j].q > 0 && Accepts(f, m[j].q) ==> m[j].q <= m[k].q)
    && (forall j :: 0 <= j < k && m[j].q > 0 && Accepts(f, m[j].q) ==> m[j].q < m[k].q)
  }

  /** Every item with a resolution is somewhere in onlyNum. */
  lemma InOnlyNumeric(m: seq<Item>, j: nat) returns (p: nat)
    requires j < |m| && m[j].q > 0
    ensures p < |OnlyNumeric(m)| && OnlyNumeric(m)[p] == Candidate(j, m[j].q)
  {
    OnlyNumericMembers(m);
    var d := Candidate(j, m[j].q);
    assert d in OnlyNumeric(m);
    p :| 0 <= p < |OnlyNumeric(m)| && OnlyNumeric(m)[p] == d;
  }

  /** What find returns on the sorted onlyNum list is the best accepted item of the menu. */
  lemma FirstAcceptedIsBest(m: seq<Item>, f: Filter, k: nat)
    requires FindFirst(OnlyNumeric(m), f, 0) == Some(k)
    ensures IsBestWhere(m, OnlyNumeric(m)[k].index, f)
  {
    var s := OnlyNumeric(m);
    OnlyNumericMembers(m);
    var c := s[k];
    assert c in s;
    forall j | 0 <= j < |m| && m[j].q > 0 && Accepts(f, m[j].q)
      ensures m[j].q <= c.q && (j < c.index ==> m[j].q < c.q)
    {
      var p := InOnlyNumeric(m, j);
      if p != k { assert Before(c, s[p]); }
    }
  }

  /** find comes back empty exactly when no item of the menu is accepted. */
  lemma NoneAccepted(m: seq<Item>, f: Filter)
    ensures FindFirst(OnlyNumeric(m), f, 0).None? <==> !HasWhere(m, f)
  {
    var s := OnlyNumeric(m);
    if FindFirst(s, f, 0).None? {
      forall j | 0 <= j < |m| && m[j].q > 0
        ensures !Accepts(f, m[j].q)
      {
        var p := InOnlyNumeric(m, j);
      }
    } else {
      FirstAcceptedIsBest(m, f, FindFirst(s, f, 0).value);
    }
  }

  /** The quality target of a preset: "auto", "max", or parseInt(target, 10) of anything else. */
  datatype Target = AutoTarget | MaxTarget | ResolutionTarget(n: Option<int>)

  function TargetOf(target: string): Target {
    if target == "auto" then AutoTarget
    else if target == "max" then MaxTarget
    else ResolutionTarget(ParseInt(target))
  }

  /** The selection policy of setQuality over the mapped items: the index of the item to click,
      if any. The chosen item is always one of the offered items. */
  function Select(t: Target, m: seq<Item>): (r: Option<nat>)
    ensures r.Some? ==> r.value < |m|
  {
    var onlyNum := OnlyNumeric(m);
    OnlyNumericMembers(m);
    match t
    case AutoTarget => FindAuto(m, 0)
    case MaxTarget =>
      if onlyNum != [] then (assert onlyNum[0] in onlyNum; Some(onlyNum[0].index))
      else FindAuto(m, 0)
    case ResolutionTarget(n) =>
      var pos := Or(Or(FindFirst(onlyNum, EqualTo(n), 0), FindFirst(onlyNum, Below(n), 0)),
                    if onlyNum == [] then None else Some(0));
      match pos
      case None => None
      case Some(i) => assert onlyNum[i] in onlyNum; Some(onlyNum[i].index)
  }

  /** setQuality's choice among the labels of the quality submenu for a preset's target. */
  function ChooseQuality(target: string, labels: seq<string>): (r: Option<nat>)
    ensures r.Some? ==> r.value < |labels|
  {
    Select(TargetOf(target), Mapped(labels))
  }

  /** Target "auto": the first item whose text contains "Auto" in any case; none if no item does. */
  lemma SelectAuto(m: seq<Item>)
    ensures Select(AutoTarget, m).None? <==> forall j :: 0 <= j < |m| ==> !m[j].isAuto
    ensures Select(AutoTarget, m).Some? ==>
              m[Select(AutoTarget, m).value].isAuto && forall j :: 0 <= j < Select(AutoTarget, m).value ==> !m[j].isAuto
  {
  }

  /** Target "max": the first item of highest resolution; the Auto item only when no item has
      a resolution. */
  lemma SelectMax(m: seq<Item>)
    ensures HasWhere(m, AnyResolution) ==> Select(MaxTarget, m).Some? && IsBestWhere(m, Select(MaxTarget, m).value, AnyResolution)
    ensures !HasWhere(m, AnyResolution) ==> Select(MaxTarget, m) == FindAuto(m, 0)
  {
    NoneAccepted(m, AnyResolution);
    if OnlyNumeric(m) != [] {
      assert FindFirst(OnlyNumeric(m), AnyResolution, 0) == Some(0);
      FirstAcceptedIsBest(m, AnyResolution, 0);
    }
  }

  /** A numeric target N: the first item of resolution N; else the first item of the highest
      resolution below N; else the first item of the highest resolution; none when no item has
      a resolution (there is no fallback to Auto here). A NaN target (n == None) compares
      false both ways, so it takes the highest. */
  lemma SelectResolution(m: seq<Item>, n: Option<int>)
    ensures HasWhere(m, EqualTo(n)) ==>
              Select(ResolutionTarget(n), m).Some? && IsBestWhere(m, Select(ResolutionTarget(n), m).value, EqualTo(n))
    ensures !HasWhere(m, EqualTo(n)) && HasWhere(m, Below(n)) ==>
              Select(ResolutionTarget(n), m).Some? && IsBestWhere(m, Select(ResolutionTarget(n), m).value, Below(n))
    ensures !HasWhere(m, EqualTo(n)) && !HasWhere(m, Below(n)) && HasWhere(m, AnyResolution) ==>
              Select(ResolutionTarget(n), m).Some? && IsBestWhere(m, Select(ResolutionTarget(n), m).value, AnyResolution)
    ensures !HasWhere(m, AnyResolution) ==> Select(ResolutionTarget(n), m).None?
    ensures n.None? ==> !HasWhere(m, EqualTo(n)) && !HasWhere(m, Below(n))
  {
    var s := OnlyNumeric(m);
    NoneAccepted(m, EqualTo(n));
    NoneAccepted(m, Below(n));
    NoneAccepted(m, AnyResolution);
    var eq := FindFirst(s, EqualTo(n), 0);
    var below := FindFirst(s, Below(n), 0);
    if eq.Some? {
      FirstAcceptedIsBest(m, EqualTo(n), eq.value);
    } else if below.Some? {
      FirstAcceptedIsBest(m, Below(n), below.value);
    } else if s != [] {
      assert FindFirst(s, AnyResolution, 0) == Some(0);
      FirstAcceptedIsBest(m, AnyResolution, 0);
    }
  }

  /** A plain resolution label such as "720p" reads as its number. */
  lemma ResolutionOfLabel(n: nat)
    requires 100 <= n < 10000
    ensures Resolution(Decimal(n) + "p") == n
  {
    var t := Decimal(n) + "p";
    assert t[0] == Decimal(n)[0] && IsDigit(t[0]);
    assert t[|t| - 1] == 'p';
    TrimUnpadded(t);
    ParseAfterPrefix("", n, "");
    assert "" + Decimal(n) + "p" + "" == t;
  }

  /** A menu whose items read 2160, 1440, 1080 and 720 (such as "2160p", "1440p", "1080p", "720p",
      see ResolutionOfLabel) answers target 1440 with the 1440 item, exactly. */
  lemma ChooseExactExample(target: string, labels: seq<string>)
    requires |labels| == 4
    requires Resolution(labels[0]) == 2160 && Resolution(labels[1]) == 1440
    requires Resolution(labels[2]) == 1080 && Resolution(labels[3]) == 720
    requires target != "auto" && target != "max" && ParseInt(target) == Some(1440)
    ensures ChooseQuality(target, labels) == Some(1)
  {
    var m := Mapped(labels);
    assert m[1].q > 0 && Accepts(EqualTo(Some(1440)), m[1].q);
    SelectResolution(m, Some(1440));
    var k := ChooseQuality(target, labels).value;
    assert m[k].q == 1440;
    assert k == 0 || k == 1 || k == 2 || k == 3;
  }

  /** The same menu answers target 900 with the next lower item, 720, not with 1080. */
  lemma ChooseNextLowerExample(target: string, labels: seq<string>)
    requires |labels| == 4
    requires Resolution(labels[0]) == 2160 && Resolution(labels[1]) == 1440
    requires Resolution(labels[2]) == 1080 && Resolution(labels[3]) == 720
    requires target != "auto" && target != "max" && ParseInt(target) == Some(900)
    ensures ChooseQuality(target, labels) == Some(3)
  {
    var m := Mapped(labels);
    assert m[3].q > 0 && Accepts(Below(Some(900)), m[3].q);
    assert !HasWhere(m, EqualTo(Some(900))) by {
      forall j | 0 <= j < |m| ensures m[j].q != 900 {
        assert j == 0 || j == 1 || j == 2 || j == 3;
      }
    }
    SelectResolution(m, Some(900));
    var k := ChooseQuality(target, labels).value;
    assert m[k].q < 900;
    assert k == 0 || k == 1 || k == 2 || k == 3;
  }

  /** Target "max" answers any menu whose first item has a resolution above every other item's
      with that first item (such as 2160, 1440, 1080, 720 or 1080, 720, 480). */
  lemma ChooseMaxFirst(labels: seq<string>)
    requires |labels| > 0 && Resolution(labels[0]) > 0
    requires forall j :: 0 < j < |labels| ==> Resolution(labels[j]) < Resolution(labels[0])
    ensures ChooseQuality("max", labels) == Some(0)
  {
    assert TargetOf("max") == MaxTarget;
    SelectMaxFirst(labels);
  }

  lemma SelectMaxFirst(labels: seq<string>)
    requires |labels| > 0 && Resolution(labels[0]) > 0
    requires forall j :: 0 < j < |labels| ==> Resolution(labels[j]) < Resolution(labels[0])
    ensures Select(MaxTarget, Mapped(labels)) == Some(0)
  {
    SelectFirstHighest(Mapped(labels));
  }

  /** An item strictly higher than all others and listed first is what "max" picks. */
  lemma SelectFirstHighest(m: seq<Item>)
    requires |m| > 0 && m[0].q > 0
    requires forall j :: 0 < j < |m| ==> m[j].q < m[0].q
    ensures Select(MaxTarget, m) == Some(0)
  {
    assert Accepts(AnyResolution, m[0].q);
    SelectMax(m);
  }
}
