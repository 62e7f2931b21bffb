/** What is printed into a pipeline description is what is extracted from the element configured by it. */
module TensorRoundTrip {
  import opened Prelude
  import Decimal
  import Lists
  import opened TensorType
  import opened TensorText
  import opened TensorExtract

  // ---------- The element ----------

  /** The properties set by the fields of a description, each of the form key=value. */
  function FieldProperties(fields: seq<string>): Properties {
    if fields == [] then map[]
    else
      var before, field := FieldProperties(fields[..|fields| - 1]), fields[|fields| - 1];
      var i := Lists.Find(field, '=');
      if i == |field| then before else before[field[..i] := field[i + 1..]]
  }

  function Configured(description: string): Properties { FieldProperties(Lists.Split(description, ' ')) }

  function RanksText(ranks: seq<int>): string { Lists.Join(Numerals(ranks), ',') }

  /** The element made from the description of `infos`, reporting `ranks`, or not reporting any if there are none. */
  function Element(type_: string, infos: seq<TensorInfo>, ranks: seq<int>): Properties {
    var props := Configured(PropertiesText(type_, infos));
    if ranks == [] then props else props[type_ + "ranks" := RanksText(ranks)]
  }

  // ---------- What comes back ----------

  function RankOf(ranks: seq<int>, i: nat): int
    requires ranks == [] || i < |ranks|
  {
    if ranks != [] then ranks[i] else 3
  }

  /** The dimensions a parser of `rank` makes of `dims`: a batch of 1 and the last `rank` of the padded four. */
  function Tail(dims: seq<int>, rank: nat): (r: seq<int>)
    requires |dims| <= 4 && 1 <= rank <= 3
    ensures |r| == rank + 1
  {
    [1] + Padded(dims)[4 - rank..]
  }

  function Read(info: TensorInfo, rank: nat): TensorInfo
    requires |info.dims| <= 4 && 1 <= rank <= 3
  {
    var t, dims := FromString(ToString(info.type_)), Tail(info.dims, rank);
    TensorInfo(t, Wrap(Size(t) * Wrap(Product(dims))), None, dims)
  }

  predicate Printable(info: TensorInfo) {
    1 <= |info.dims| <= 4 && forall i :: 0 <= i < |info.dims| ==> IsInt(info.dims[i])
  }

  ghost predicate Printables(infos: seq<TensorInfo>, ranks: seq<int>) {
    && infos != []
    && (forall i :: 0 <= i < |infos| ==> Printable(infos[i]))
    && (ranks == [] || |ranks| == |infos|)
    && (forall i :: 0 <= i < |ranks| ==> 1 <= ranks[i] <= 3)
  }

  /** The parser of the `i`-th dimensions returns a product that is not negative. */
  predicate Accepted(infos: seq<TensorInfo>, ranks: seq<int>, i: nat)
    requires i < |infos| && |infos[i].dims| <= 4
    requires ranks == [] || (|ranks| == |infos| && 1 <= ranks[i] <= 3)
  {
    Wrap(Product(Tail(infos[i].dims, RankOf(ranks, i)))) >= 0
  }

  function ReadAll(infos: seq<TensorInfo>, ranks: seq<int>): (r: seq<TensorInfo>)
    requires Printables(infos, ranks)
    ensures |r| == |infos|
  {
    seq(|infos|, i requires 0 <= i < |infos| => Read(infos[i], RankOf(ranks, i)))
  }

  // ---------- Text ----------

  lemma ScanOne(x: int, rest: string, n: nat)
    requires IsInt(x) && n > 0 && (rest == "" || rest[0] == ':')
    ensures ScanInts(Decimal.ToString(x) + rest, n) == [x] + (if rest == "" then [] else ScanInts(rest[1..], n - 1))
  {
    Decimal.ScanPrinted(x, rest);
  }

  lemma NumeralsJoined(xs: seq<int>, c: char)
    requires xs != []
    ensures Lists.Join(Numerals(xs), c) ==
            Decimal.ToString(xs[0]) + (if |xs| == 1 then "" else [c] + Lists.Join(Numerals(xs[1..]), c))
  {
    assert Numerals(xs)[1..] == Numerals(xs[1..]);
  }

  lemma ScanStep(xs: seq<int>, n: nat)
    requires xs != [] && n > 0 && IsInt(xs[0])
    ensures ScanInts(Lists.Join(Numerals(xs), ':'), n) ==
            [xs[0]] + (if |xs| == 1 then [] else ScanInts(Lists.Join(Numerals(xs[1..]), ':'), n - 1))
  {
    var rest := if |xs| == 1 then "" else [':'] + Lists.Join(Numerals(xs[1..]), ':');
    NumeralsJoined(xs, ':');
    ScanOne(xs[0], rest, n);
    if |xs| > 1 {
      assert rest[1..] == Lists.Join(Numerals(xs[1..]), ':');
    }
  }

  lemma ScanMore(xs: seq<int>, n: nat)
    requires |xs| > 1 && n > 0 && IsInt(xs[0]) && n <= |xs|
    requires ScanInts(Lists.Join(Numerals(xs[1..]), ':'), n - 1) == xs[1..][..n - 1]
    ensures ScanInts(Lists.Join(Numerals(xs), ':'), n) == xs[..n]
  {
    ScanStep(xs, n);
  }

  lemma {:induction false} ScanJoined(xs: seq<int>, n: nat)
    requires n <= |xs| && forall i :: 0 <= i < |xs| ==> IsInt(xs[i])
    ensures ScanInts(Lists.Join(Numerals(xs), ':'), n) == xs[..n]
  {
    if n == 0 {
    } else if |xs| == 1 {
      ScanStep(xs, n);
    } else {
      ScanJoined(xs[1..], n - 1);
      ScanMore(xs, n);
    }
  }

  lemma DimsParse(dims: seq<int>, rank: nat)
    requires 1 <= |dims| <= 4 && 1 <= rank <= 3 && forall i :: 0 <= i < |dims| ==> IsInt(dims[i])
    ensures ParseDims(DimsText(dims), rank) == Parsed(Wrap(Product(Tail(dims, rank))), Tail(dims, rank))
  {
    var p := Reversed(Padded(dims));
    ScanJoined(p, rank);
    assert Reversed(p[..rank]) == Padded(dims)[4 - rank..];
  }

  // ---------- Ranks ----------

  /** The value of digits of which the first counts the ones. */
  function LowFirst(digits: string): nat
    requires Decimal.AllDigits(digits)
  {
    if digits == "" then 0 else Decimal.DigitValue(digits[0]) + 10 * LowFirst(digits[1..])
  }

  /** What a printed rank is read as: its numeral from right to left. */
  function Mirrored(rank: nat): nat {
    Decimal.UnsignedDigits(rank);
    LowFirst(Decimal.Unsigned(rank))
  }

  lemma {:induction false} LowFirstIsReversed(digits: string)
    requires Decimal.AllDigits(digits)
    ensures Decimal.AllDigits(Reversed(digits)) && LowFirst(digits) == Decimal.ValueOf(Reversed(digits))
  {
    if digits == "" {
    } else {
      var r := Reversed(digits);
      assert r[..|r| - 1] == Reversed(digits[1..]);
      LowFirstIsReversed(digits[1..]);
    }
  }

  /** Wrapping at every digit is wrapping once. */
  lemma WrapDigit(rank: int, mult: int, digit: int, rest: int)
    ensures Wrap(Wrap(rank + Wrap(mult * digit)) + Wrap(mult * 10) * rest) == Wrap(rank + mult * (digit + 10 * rest))
  {
    var k1 := WrapIs(mult * digit);
    var k2 := WrapIs(rank + Wrap(mult * digit));
    var k3 := WrapIs(mult * 10);
    var k := k1 + k2 + k3 * rest;
    calc {
      Wrap(rank + Wrap(mult * digit)) + Wrap(mult * 10) * rest;
    ==
      rank + mult * digit + k1 * TWO_TO_THE_32 + k2 * TWO_TO_THE_32 + (mult * 10 + k3 * TWO_TO_THE_32) * rest;
    ==
      rank + mult * (digit + 10 * rest) + k * TWO_TO_THE_32;
    }
    WrapShift(rank + mult * (digit + 10 * rest), k);
  }

  lemma {:induction false} RankOfDigits(digits: string, rest: string, rank: int, mult: int)
    requires Decimal.AllDigits(digits) && IsInt(rank) && (rest == "" || rest[0] == ',')
    ensures RanksFrom(digits + rest, rank, mult) ==
            [Wrap(rank + mult * LowFirst(digits))] + if rest == "" then [] else RanksFrom(rest[1..], 0, 1)
  {
    if digits == "" {
      assert digits + rest == rest;
    } else {
      var d := Decimal.DigitValue(digits[0]);
      assert (digits + rest)[1..] == digits[1..] + rest;
      RankOfDigits(digits[1..], rest, Wrap(rank + Wrap(mult * d)), Wrap(mult * 10));
      WrapDigit(rank, mult, d, LowFirst(digits[1..]));
    }
  }

  /** Every printed list of ranks is read with each numeral from right to left, wrapped to an int. */
  lemma {:induction false} RanksAreMirrored(ranks: seq<int>)
    requires ranks != [] && forall i :: 0 <= i < |ranks| ==> 0 <= ranks[i]
    ensures RanksText(ranks) != ""
    ensures RanksFrom(RanksText(ranks), 0, 1) == seq(|ranks|, i requires 0 <= i < |ranks| => Wrap(Mirrored(ranks[i])))
  {
    var first := Decimal.Unsigned(ranks[0]);
    var s := RanksText(ranks);
    Decimal.UnsignedDigits(ranks[0]);
    assert Numerals(ranks)[0] == first;
    if |ranks| == 1 {
      assert s == first + "";
      RankOfDigits(first, "", 0, 1);
    } else {
      assert Numerals(ranks)[1..] == Numerals(ranks[1..]);
      var rest := [','] + RanksText(ranks[1..]);
      assert s == first + rest && rest[1..] == RanksText(ranks[1..]);
      RankOfDigits(first, rest, 0, 1);
      RanksAreMirrored(ranks[1..]);
    }
  }

  /** A rank comes back as it was exactly if its numeral read from right to left wraps to it. */
  lemma RankComesBack(rank: nat)
    ensures Decimal.AllDigits(Reversed(Decimal.Unsigned(rank)))
    ensures RanksFrom(RanksText([rank]), 0, 1) == [rank] <==>
            Wrap(Decimal.ValueOf(Reversed(Decimal.Unsigned(rank)))) == rank
  {
    Decimal.UnsignedDigits(rank);
    LowFirstIsReversed(Decimal.Unsigned(rank));
    RanksAreMirrored([rank]);
  }

  lemma DigitIsMirrored(d: nat)
    requires d < 10
    ensures Mirrored(d) == d
  {
    var s := Decimal.Unsigned(d);
    assert s == [Decimal.Digit(d)] && s[1..] == "" && Decimal.DigitValue(s[0]) == d;
    assert LowFirst(s[1..]) == 0;
  }

  /** Ranks of one digit, which all that the parsers take are, come back. */
  lemma RanksRead(ranks: seq<int>)
    requires ranks != [] && forall i :: 0 <= i < |ranks| ==> 0 <= ranks[i] <= 9
    ensures RanksFrom(RanksText(ranks), 0, 1) == ranks && RanksText(ranks) != ""
  {
    RanksAreMirrored(ranks);
    forall i | 0 <= i < |ranks| ensures Wrap(Mirrored(ranks[i])) == ranks[i] {
      DigitIsMirrored(ranks[i]);
    }
  }

  lemma {:induction false} JoinStarts(parts: seq<string>, c: char)
    requires parts != [] && parts[0] != ""
    ensures Lists.Join(parts, c) != ""
  {
    assert |Lists.Join(parts, c)| >= |parts[0]|;
  }

  lemma DimsTextIsPlain(dims: seq<int>, c: char)
    requires c == ',' || c == ' ' || c == '='
    ensures c !in DimsText(dims) && (1 <= |dims| <= 4 ==> DimsText(dims) != "")
  {
    if 1 <= |dims| <= 4 {
      var xs := Reversed(Padded(dims));
      forall p | p in Numerals(xs) ensures c !in p && p != "" {
        var i :| 0 <= i < |xs| && p == Numerals(xs)[i];
        Decimal.Printable(xs[i], c);
      }
      Lists.JoinLacks(Numerals(xs), ':', c);
      JoinStarts(Numerals(xs), ':');
    }
  }

  lemma TypesText(infos: seq<TensorInfo>)
    requires infos != []
    ensures var s := Lists.Join(TypeParts(infos), ',');
            s != "" && ' ' !in s && '=' !in s && Lists.Split(s, ',') == TypeParts(infos)
  {
    forall p | p in TypeParts(infos) ensures ',' !in p && ' ' !in p && '=' !in p {
      var i :| 0 <= i < |infos| && p == TypeParts(infos)[i];
      NamesArePlain(infos[i].type_, ',');
      NamesArePlain(infos[i].type_, ' ');
      NamesArePlain(infos[i].type_, '=');
    }
    Lists.SplitJoin(TypeParts(infos), ',');
    Lists.JoinLacks(TypeParts(infos), ',', ' ');
    Lists.JoinLacks(TypeParts(infos), ',', '=');
    JoinStarts(TypeParts(infos), ',');
  }

  lemma DimsListText(infos: seq<TensorInfo>)
    requires infos != [] && forall i :: 0 <= i < |infos| ==> Printable(infos[i])
    ensures var s := Lists.Join(DimsParts(infos), ',');
            s != "" && ' ' !in s && '=' !in s && Lists.Split(s, ',') == DimsParts(infos)
  {
    forall p | p in DimsParts(infos) ensures ',' !in p && ' ' !in p && '=' !in p {
      var i :| 0 <= i < |infos| && p == DimsParts(infos)[i];
      DimsTextIsPlain(infos[i].dims, ',');
      DimsTextIsPlain(infos[i].dims, ' ');
      DimsTextIsPlain(infos[i].dims, '=');
    }
    DimsTextIsPlain(infos[0].dims, ',');
    Lists.SplitJoin(DimsParts(infos), ',');
    Lists.JoinLacks(DimsParts(infos), ',', ' ');
    Lists.JoinLacks(DimsParts(infos), ',', '=');
    JoinStarts(DimsParts(infos), ',');
  }

  lemma FieldFound(key: string, value: string)
    requires '=' !in key
    ensures var f := key + "=" + value;
            var i := Lists.Find(f, '=');
            i < |f| && f[..i] == key && f[i + 1..] == value
  {
    var f := key + "=" + value;
    assert f[..|key|] == key;
    Lists.FindAt(f, '=', |key|);
  }

  lemma TwoFields(f: string, g: string)
    requires ' ' !in f && ' ' !in g
    ensures Lists.Split(" " + f + " " + g, ' ') == ["", f, g]
  {
    var parts := ["", f, g];
    assert parts[1..] == [f, g] && [f, g][1..] == [g];
    assert [' '] == " ";
    assert Lists.Join([f, g], ' ') == f + " " + g;
    assert Lists.Join(parts, ' ') == " " + f + " " + g;
    Lists.SplitJoin(parts, ' ');
  }

  lemma FieldPair(k: string, v: string, l: string, w: string)
    requires '=' !in k && '=' !in l && k != l
    ensures FieldProperties(["", k + "=" + v, l + "=" + w]) == map[k := v, l := w]
  {
    var f, g := k + "=" + v, l + "=" + w;
    FieldFound(k, v);
    FieldFound(l, w);
    assert ["", f, g][..2] == ["", f] && ["", f][..1] == [""] && [""][..0] == [];
    assert Lists.Find("", '=') == |""|;
    assert FieldProperties([""]) == map[];
    assert FieldProperties(["", f]) == map[k := v];
  }

  /** The element configured by a description has the printed lists as its properties. */
  lemma ConfiguredBy(type_: string, infos: seq<TensorInfo>)
    requires ' ' !in type_ && '=' !in type_
    requires infos != [] && forall i :: 0 <= i < |infos| ==> Printable(infos[i])
    ensures Configured(PropertiesText(type_, infos)) ==
            map[type_ + "type" := Lists.Join(TypeParts(infos), ','), type_ := Lists.Join(DimsParts(infos), ',')]
  {
    var v, w := Lists.Join(TypeParts(infos), ','), Lists.Join(DimsParts(infos), ',');
    var k := type_ + "type";
    TypesText(infos);
    DimsListText(infos);
    TwoFields(k + "=" + v, type_ + "=" + w);
    FieldPair(k, v, type_, w);
    SameText(type_, v, w);
  }

  lemma SameText(type_: string, v: string, w: string)
    ensures " " + (type_ + "type" + "=" + v) + " " + (type_ + "=" + w) ==
            " " + type_ + "type=" + v + " " + type_ + "=" + w
  {
    assert "type" + "=" == "type=";
  }

  // ---------- The extraction of what was printed ----------

  lemma BuiltFrom(info: TensorInfo, rank: nat)
    requires Printable(info) && 1 <= rank <= 3
    ensures var ret := Wrap(Product(Tail(info.dims, rank)));
            var built := Built(FromString(ToString(info.type_)), DimsText(info.dims), rank);
            built == if ret < 0 then Error(ret) else Infos([Read(info, rank)])
  {
    DimsParse(info.dims, rank);
  }

  function ReadTypes(infos: seq<TensorInfo>): seq<Type> { Types(TypeParts(infos)) }

  lemma BuildOne(infos: seq<TensorInfo>, ranks: seq<int>, i: nat)
    requires Printables(infos, ranks) && i < |infos|
    ensures var e := Build(ReadTypes(infos), DimsParts(infos), ranks, i);
            if Accepted(infos, ranks, i) then
              e == Prepend([Read(infos[i], RankOf(ranks, i))], Build(ReadTypes(infos), DimsParts(infos), ranks, i + 1))
            else e.Error? && e.code < 0
  {
    BuiltFrom(infos[i], RankOf(ranks, i));
  }

  ghost predicate AllAccepted(infos: seq<TensorInfo>, ranks: seq<int>, i: nat)
    requires Printables(infos, ranks)
  {
    forall j :: i <= j < |infos| ==> Accepted(infos, ranks, j)
  }

  lemma AcceptedFrom(infos: seq<TensorInfo>, ranks: seq<int>, i: nat)
    requires Printables(infos, ranks) && i < |infos|
    ensures AllAccepted(infos, ranks, i) <==> Accepted(infos, ranks, i) && AllAccepted(infos, ranks, i + 1)
  {
  }

  lemma ReadFrom(infos: seq<TensorInfo>, ranks: seq<int>, i: nat)
    requires Printables(infos, ranks) && i < |infos|
    ensures ReadAll(infos, ranks)[i..] == [Read(infos[i], RankOf(ranks, i))] + ReadAll(infos, ranks)[i + 1..]
  {
  }

  /** From the `i`-th on, everything is read unless the product of some dimensions is taken for an error. */
  lemma {:induction false} BuildAll(infos: seq<TensorInfo>, ranks: seq<int>, i: nat)
    requires Printables(infos, ranks) && i <= |infos|
    ensures var e := Build(ReadTypes(infos), DimsParts(infos), ranks, i);
            if AllAccepted(infos, ranks, i) then e == Infos(ReadAll(infos, ranks)[i..]) else e.Error? && e.code < 0
    decreases |infos| - i
  {
    if i < |infos| {
      BuildAll(infos, ranks, i + 1);
      BuildOne(infos, ranks, i);
      AcceptedFrom(infos, ranks, i);
      ReadFrom(infos, ranks, i);
    }
  }

  lemma ElementProperties(type_: string, infos: seq<TensorInfo>, ranks: seq<int>)
    requires type_ == "input" || type_ == "output"
    requires Printables(infos, ranks)
    ensures var e := Element(type_, infos, ranks);
            && Property(e, Attribute(type_, "type")) == Lists.Join(TypeParts(infos), ',')
            && Property(e, type_) == Lists.Join(DimsParts(infos), ',')
            && Property(e, Attribute(type_, "ranks")) == (if ranks == [] then "" else RanksText(ranks))
  {
    ConfiguredBy(type_, infos);
    var k, l := type_ + "type", type_ + "ranks";
    assert k[|k| - 1] == 'e' && l[|l| - 1] == 's';
    assert type_[|type_| - 1] == 't';
    assert Attribute(type_, "type") == k && Attribute(type_, "ranks") == l;
  }

  /**
   Print, configure, extract: for all infos of one to four dimensions each and all ranks of one to
   three, or no ranks, what comes back is exactly ReadAll, unless the product of some dimensions
   wraps to a negative number, which is then taken for an error.
   */
  lemma RoundTrip(type_: string, infos: seq<TensorInfo>, ranks: seq<int>)
    requires type_ == "input" || type_ == "output"
    requires Printables(infos, ranks)
    ensures var e := Extract(Element(type_, infos, ranks), type_);
            if AllAccepted(infos, ranks, 0) then e == Infos(ReadAll(infos, ranks))
            else e.Error? && e.code < 0
  {
    ElementProperties(type_, infos, ranks);
    TypesText(infos);
    DimsListText(infos);
    if ranks != [] {
      RanksRead(ranks);
    }
    BuildAll(infos, ranks, 0);
    assert ReadAll(infos, ranks)[0..] == ReadAll(infos, ranks);
  }

  // ---------- When an info comes back as it was ----------

  /** The dimensions that come back are the printed ones exactly if the batch is 1 and the rank fits. */
  lemma DimsComeBack(dims: seq<int>, rank: nat)
    requires 1 <= |dims| <= 4 && 1 <= rank <= 3
    ensures Tail(dims, rank) == dims <==> |dims| == rank + 1 && dims[0] == 1
  {
    if |dims| == rank + 1 {
      assert Padded(dims)[4 - rank..] == dims[1..];
      assert dims == [dims[0]] + dims[1..];
      assert Tail(dims, rank)[0] == 1;
    }
  }

  /** Without ranks the padded dimensions come back, exactly if there are at most three or the batch is 1. */
  lemma PaddedComeBack(dims: seq<int>)
    requires 1 <= |dims| <= 4
    ensures Tail(dims, 3) == Padded(dims) <==> |dims| <= 3 || dims[0] == 1
  {
    var p := Padded(dims);
    assert p == [p[0]] + p[1..];
    assert Tail(dims, 3)[0] == 1;
  }

  lemma WrapTimes(x: int, y: int)
    ensures Wrap(x * Wrap(y)) == Wrap(x * y)
  {
    WrapMul(y, x);
  }

  function TrueSize(t: Type, dims: seq<int>): int { Size(t) * Product(dims) }

  /** The size that comes back is the true one exactly if that fits an int. */
  lemma SizeComesBack(info: TensorInfo, rank: nat)
    requires |info.dims| <= 4 && 1 <= rank <= 3
    ensures var r := Read(info, rank);
            r.size == TrueSize(r.type_, r.dims) <==> IsInt(TrueSize(r.type_, r.dims))
  {
    var r := Read(info, rank);
    WrapTimes(Size(r.type_), Product(r.dims));
  }

  lemma {:induction false} OnesInFront(n: nat, xs: seq<int>)
    ensures Product(seq(n, _ => 1) + xs) == Product(xs)
  {
    var ones := seq(n, _ => 1);
    var all := ones + xs;
    if xs != [] {
      OnesInFront(n, xs[..|xs| - 1]);
      assert all[..|all| - 1] == ones + xs[..|xs| - 1];
    } else if n > 0 {
      OnesInFront(n - 1, []);
      assert all[..n - 1] == seq(n - 1, _ => 1) + [];
    }
  }

  /** What a model file says and the ranks an element reports for it: a batch of 1 and one to three more. */
  ghost predicate Ranked(infos: seq<TensorInfo>, ranks: seq<int>) {
    && Printables(infos, ranks)
    && ranks != []
    && forall i :: 0 <= i < |infos| ==> |infos[i].dims| == ranks[i] + 1 && infos[i].dims[0] == 1
  }

  /** Nothing but the type, the dimensions and the size they make. */
  function Bare(info: TensorInfo): TensorInfo {
    TensorInfo(info.type_, Wrap(Size(info.type_) * Product(info.dims)), None, info.dims)
  }

  function BareAll(infos: seq<TensorInfo>): (r: seq<TensorInfo>)
    ensures |r| == |infos|
  {
    seq(|infos|, i requires 0 <= i < |infos| => Bare(infos[i]))
  }

  /**
   The exact round trip: types and dimensions come back as they were, with the size they make,
   if and only if no product of dimensions wraps to a negative number and no type is UINT64.
   */
  lemma ExactRoundTrip(type_: string, infos: seq<TensorInfo>, ranks: seq<int>)
    requires type_ == "input" || type_ == "output"
    requires Ranked(infos, ranks)
    ensures Extract(Element(type_, infos, ranks), type_) == Infos(BareAll(infos)) <==>
            (forall i :: 0 <= i < |infos| ==> Wrap(Product(infos[i].dims)) >= 0) &&
            (forall i :: 0 <= i < |infos| ==> !infos[i].type_.UINT64?)
  {
    RoundTrip(type_, infos, ranks);
    AcceptedWhenRanked(infos, ranks);
    BareWhenRanked(infos, ranks);
  }

  lemma AcceptedWhenRanked(infos: seq<TensorInfo>, ranks: seq<int>)
    requires Ranked(infos, ranks)
    ensures AllAccepted(infos, ranks, 0) <==> forall i :: 0 <= i < |infos| ==> Wrap(Product(infos[i].dims)) >= 0
  {
    forall i | 0 <= i < |infos| ensures Accepted(infos, ranks, i) == (Wrap(Product(infos[i].dims)) >= 0) {
      ReadIsBare(infos[i], ranks[i]);
    }
  }

  lemma BareWhenRanked(infos: seq<TensorInfo>, ranks: seq<int>)
    requires Ranked(infos, ranks)
    ensures ReadAll(infos, ranks) == BareAll(infos) <==> forall i :: 0 <= i < |infos| ==> !infos[i].type_.UINT64?
  {
    forall i | 0 <= i < |infos| ensures ReadAll(infos, ranks)[i] == BareAll(infos)[i] <==> !infos[i].type_.UINT64? {
      ReadIsBare(infos[i], ranks[i]);
    }
  }

  lemma ReadIsBare(info: TensorInfo, rank: nat)
    requires Printable(info) && 1 <= rank <= 3 && |info.dims| == rank + 1 && info.dims[0] == 1
    ensures Tail(info.dims, rank) == info.dims
    ensures Read(info, rank) == Bare(info) <==> !info.type_.UINT64?
  {
    DimsComeBack(info.dims, rank);
    NameRoundTrip(info.type_, "");
    WrapTimes(Size(info.type_), Product(info.dims));
  }

  /** The info without its name, with 1s in front of its dimensions up to four, and the size that it had. */
  function BarePadded(info: TensorInfo): TensorInfo
    requires |info.dims| <= 4
  {
    Bare(info).(dims := Padded(info.dims))
  }

  function PaddedAll(infos: seq<TensorInfo>): (r: seq<TensorInfo>)
    requires forall i :: 0 <= i < |infos| ==> |infos[i].dims| <= 4
    ensures |r| == |infos|
  {
    seq(|infos|, i requires 0 <= i < |infos| => BarePadded(infos[i]))
  }

  /** Three dimensions or less, or a batch of 1. */
  predicate FitsThree(info: TensorInfo) { |info.dims| == 4 ==> info.dims[0] == 1 }

  /**
   The round trip without ranks: types come back, and the dimensions with 1s in front up to four, with the size of
   the dimensions as they were, if and only if no product wraps to a negative number and no type is UINT64.
   */
  lemma FallbackRoundTrip(type_: string, infos: seq<TensorInfo>)
    requires type_ == "input" || type_ == "output"
    requires Printables(infos, []) && forall i :: 0 <= i < |infos| ==> FitsThree(infos[i])
    ensures Extract(Element(type_, infos, []), type_) == Infos(PaddedAll(infos)) <==>
            (forall i :: 0 <= i < |infos| ==> Wrap(Product(infos[i].dims)) >= 0) &&
            (forall i :: 0 <= i < |infos| ==> !infos[i].type_.UINT64?)
  {
    RoundTrip(type_, infos, []);
    AcceptedWhenPadded(infos);
    PaddedWhenRead(infos);
  }

  lemma AcceptedWhenPadded(infos: seq<TensorInfo>)
    requires Printables(infos, []) && forall i :: 0 <= i < |infos| ==> FitsThree(infos[i])
    ensures AllAccepted(infos, [], 0) <==> forall i :: 0 <= i < |infos| ==> Wrap(Product(infos[i].dims)) >= 0
  {
    forall i | 0 <= i < |infos| ensures Accepted(infos, [], i) == (Wrap(Product(infos[i].dims)) >= 0) {
      ReadIsPadded(infos[i]);
    }
  }

  lemma PaddedWhenRead(infos: seq<TensorInfo>)
    requires Printables(infos, []) && forall i :: 0 <= i < |infos| ==> FitsThree(infos[i])
    ensures ReadAll(infos, []) == PaddedAll(infos) <==> forall i :: 0 <= i < |infos| ==> !infos[i].type_.UINT64?
  {
    forall i | 0 <= i < |infos| ensures ReadAll(infos, [])[i] == PaddedAll(infos)[i] <==> !infos[i].type_.UINT64? {
      ReadIsPadded(infos[i]);
    }
  }

  lemma ReadIsPadded(info: TensorInfo)
    requires Printable(info) && FitsThree(info)
    ensures Product(Tail(info.dims, 3)) == Product(info.dims)
    ensures Read(info, 3) == BarePadded(info) <==> !info.type_.UINT64?
    ensures Read(info, 3).size == Wrap(Size(Read(info, 3).type_) * Product(info.dims))
  {
    PaddedComeBack(info.dims);
    OnesInFront(4 - |info.dims|, info.dims);
    NameRoundTrip(info.type_, "");
    WrapTimes(Size(Read(info, 3).type_), Product(info.dims));
  }

  /**
   And each size that comes back is element size times the product of the printed dimensions exactly if that
   fits an int.
   */
  lemma FallbackSizes(type_: string, infos: seq<TensorInfo>)
    requires type_ == "input" || type_ == "output"
    requires Printables(infos, []) && forall i :: 0 <= i < |infos| ==> FitsThree(infos[i])
    ensures var r := Extract(Element(type_, infos, []), type_);
            r.Infos? ==>
              && |r.infos| == |infos|
              && forall i :: 0 <= i < |infos| ==>
                   var size := TrueSize(r.infos[i].type_, infos[i].dims); r.infos[i].size == size <==> IsInt(size)
  {
    RoundTrip(type_, infos, []);
    forall i | 0 <= i < |infos|
      ensures ReadAll(infos, [])[i].size == Wrap(Size(ReadAll(infos, [])[i].type_) * Product(infos[i].dims))
    {
      ReadIsPadded(infos[i]);
    }
  }
}
