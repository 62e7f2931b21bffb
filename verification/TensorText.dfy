/**
 The text form of tensor infos: what is printed into a pipeline description, and what
 is parsed back from the properties of the pipeline's element.

 The element is a map that returns the strings it was given.  The strings hold no
 terminator of their own.
 */
module TensorText {
  import opened Prelude
  import Decimal
  import Lists
  import opened TensorType

  // ---------- int arithmetic ----------

  const TWO_TO_THE_32 := 0x1_0000_0000
  const INT_MIN := -0x8000_0000
  const INT_MAX := 0x7fff_ffff

  predicate IsInt(x: int) { INT_MIN <= x <= INT_MAX }

  /** The int a result wraps around to. */
  function Wrap(x: int): (r: int)
    ensures IsInt(r) && (IsInt(x) ==> r == x)
  {
    (x - INT_MIN) % TWO_TO_THE_32 + INT_MIN
  }

  function Product(xs: seq<int>): int {
    if xs == [] then 1 else Product(xs[..|xs| - 1]) * xs[|xs| - 1]
  }

  lemma WrapShift(x: int, k: int)
    ensures Wrap(x + k * TWO_TO_THE_32) == Wrap(x)
  {
    var y := x - INT_MIN;
    var q := y / TWO_TO_THE_32;
    assert y == q * TWO_TO_THE_32 + y % TWO_TO_THE_32;
    assert y + k * TWO_TO_THE_32 == (q + k) * TWO_TO_THE_32 + y % TWO_TO_THE_32;
  }

  lemma WrapIs(x: int) returns (k: int)
    ensures Wrap(x) == x + k * TWO_TO_THE_32
  {
    var y := x - INT_MIN;
    k := -(y / TWO_TO_THE_32);
  }

  /** Wrapping early makes no difference. */
  lemma WrapMul(x: int, y: int)
    ensures Wrap(Wrap(x) * y) == Wrap(x * y)
  {
    var k := WrapIs(x);
    assert (x + k * TWO_TO_THE_32) * y == x * y + (k * y) * TWO_TO_THE_32;
    WrapShift(x * y, k * y);
  }

  // ---------- Printing ----------

  function Reversed<T>(s: seq<T>): (r: seq<T>)
    ensures |r| == |s| && forall i :: 0 <= i < |s| ==> r[i] == s[|s| - 1 - i]
  {
    seq(|s|, i requires 0 <= i < |s| => s[|s| - 1 - i])
  }

  /** Up to four dimensions with 1s in front to make them four. */
  function Padded(dims: seq<int>): (r: seq<int>)
    requires |dims| <= 4
    ensures |r| == 4
  {
    seq(4 - |dims|, _ => 1) + dims
  }

  function Map<T, U>(f: T -> U, s: seq<T>): (r: seq<U>)
    ensures |r| == |s| && forall i :: 0 <= i < |s| ==> r[i] == f(s[i])
  {
    seq(|s|, i requires 0 <= i < |s| => f(s[i]))
  }

  function Numerals(xs: seq<int>): (r: seq<string>)
    ensures |r| == |xs|
  {
    Map(Decimal.ToString, xs)
  }

  /** What is printed for one info's dimensions: the four padded ones, the last one first. */
  function DimsText(dims: seq<int>): string {
    if 1 <= |dims| <= 4 then Lists.Join(Numerals(Reversed(Padded(dims))), ':') else ""
  }

  function TypeParts(infos: seq<TensorInfo>): (r: seq<string>)
    ensures |r| == |infos|
  {
    seq(|infos|, i requires 0 <= i < |infos| => ToString(infos[i].type_))
  }

  function DimsParts(infos: seq<TensorInfo>): (r: seq<string>)
    ensures |r| == |infos|
  {
    seq(|infos|, i requires 0 <= i < |infos| => DimsText(infos[i].dims))
  }

  function PropertiesText(type_: string, infos: seq<TensorInfo>): string {
    " " + type_ + "type=" + Lists.Join(TypeParts(infos), ',') + " " + type_ + "=" + Lists.Join(DimsParts(infos), ',')
  }

  lemma Joined(a: string, b: string, c: string, d: string)
    ensures Lists.Join([a], ':') == a
    ensures Lists.Join([a, b], ':') == a + ":" + b
    ensures Lists.Join([a, b, c], ':') == a + ":" + (b + ":") + c
    ensures Lists.Join([a, b, c, d], ':') == a + ":" + (b + ":") + (c + ":") + d
  {
    assert [a, b, c, d][1..] == [b, c, d];
    assert [a, b, c][1..] == [b, c];
    assert [b, c, d][1..] == [c, d];
    assert [a, b][1..] == [b] && [b, c][1..] == [c] && [c, d][1..] == [d];
    assert [':'] == ":";
    assert Lists.Join([c, d], ':') == c + ":" + d;
    assert Lists.Join([b, c], ':') == b + ":" + c;
    assert Lists.Join([b, c, d], ':') == b + ":" + (c + ":" + d);
    assert a + ":" + (b + ":" + c) == a + ":" + (b + ":") + c;
    assert a + ":" + (b + ":" + (c + ":" + d)) == a + ":" + (b + ":") + (c + ":") + d;
  }

  function Ones(n: nat): string { if n == 0 then "" else Ones(n - 1) + ":1" }

  lemma {:induction false} JoinOnes(parts: seq<string>, n: nat)
    requires parts != []
    ensures Lists.Join(parts + seq(n, _ => "1"), ':') == Lists.Join(parts, ':') + Ones(n)
  {
    if n == 0 {
      assert parts + seq(0, _ => "1") == parts;
    } else {
      JoinOnes(parts, n - 1);
      assert parts + seq(n, _ => "1") == (parts + seq(n - 1, _ => "1")) + ["1"];
      Lists.JoinSnoc(parts + seq(n - 1, _ => "1"), "1", ':');
      var so := Lists.Join(parts, ':') + Ones(n - 1);
      assert so + [':'] + "1" == so + ":1";
    }
  }

  lemma OneIsOne()
    ensures Decimal.ToString(1) == "1"
  {
    assert Decimal.Unsigned(1) == [Decimal.Digit(1)];
  }

  lemma MapPadded(f: int -> string, dims: seq<int>)
    requires |dims| <= 4
    ensures Map(f, Reversed(Padded(dims))) == Reversed(Map(f, dims)) + seq(4 - |dims|, _ => f(1))
  {
  }

  lemma OnesAreOnes(n: nat)
    ensures seq(n, _ => Decimal.ToString(1)) == seq(n, _ => "1")
  {
    OneIsOne();
  }

  /** The four parts are the dimensions' own, the last one first, with 1s behind them. */
  lemma DimsTextIs(dims: seq<int>)
    requires 1 <= |dims| <= 4
    ensures DimsText(dims) == Lists.Join(Reversed(Numerals(dims)), ':') + Ones(4 - |dims|)
  {
    MapPadded(Decimal.ToString, dims);
    OnesAreOnes(4 - |dims|);
    JoinOnes(Reversed(Numerals(dims)), 4 - |dims|);
  }

  /** The text of one info's dimensions, for each number of them. */
  lemma DimsTextForms(a: int, b: int, c: int, d: int, others: seq<int>)
    requires |others| == 0 || |others| > 4
    ensures var s := Decimal.ToString;
            && DimsText([a]) == s(a) + ":1:1:1"
            && DimsText([a, b]) == s(b) + ":" + s(a) + ":1:1"
            && DimsText([a, b, c]) == s(c) + ":" + (s(b) + ":") + s(a) + ":1"
            && DimsText([a, b, c, d]) == s(d) + ":" + (s(c) + ":") + (s(b) + ":") + s(a)
            && DimsText(others) == ""
  {
    var s := Decimal.ToString;
    DimsTextIs([a]);
    DimsTextIs([a, b]);
    DimsTextIs([a, b, c]);
    DimsTextIs([a, b, c, d]);
    assert Reversed(Numerals([a])) == [s(a)];
    assert Reversed(Numerals([a, b])) == [s(b), s(a)];
    assert Reversed(Numerals([a, b, c])) == [s(c), s(b), s(a)];
    assert Reversed(Numerals([a, b, c, d])) == [s(d), s(c), s(b), s(a)];
    Joined(s(a), "", "", "");
    Joined(s(b), s(a), "", "");
    Joined(s(c), s(b), s(a), "");
    Joined(s(d), s(c), s(b), s(a));
    OnesAre();
  }

  lemma OnesAre()
    ensures Ones(0) == "" && Ones(1) == ":1" && Ones(2) == ":1:1" && Ones(3) == ":1:1:1"
  {
  }

  /** The whole text for one info, and for two. */
  lemma PropertiesForms(type_: string, x: TensorInfo, y: TensorInfo)
    ensures PropertiesText(type_, [x]) ==
            " " + type_ + "type=" + ToString(x.type_) + " " + type_ + "=" + DimsText(x.dims)
    ensures PropertiesText(type_, [x, y]) ==
            " " + type_ + "type=" + (ToString(x.type_) + "," + ToString(y.type_)) +
            " " + type_ + "=" + (DimsText(x.dims) + "," + DimsText(y.dims))
  {
    assert TypeParts([x]) == [ToString(x.type_)] && DimsParts([x]) == [DimsText(x.dims)];
    var types, dims := TypeParts([x, y]), DimsParts([x, y]);
    assert types == [ToString(x.type_)] + [ToString(y.type_)] && dims == [DimsText(x.dims)] + [DimsText(y.dims)];
    Lists.JoinSnoc([ToString(x.type_)], ToString(y.type_), ',');
    Lists.JoinSnoc([DimsText(x.dims)], DimsText(y.dims), ',');
    assert [','] == ",";
  }

  /** The cases of TensorInfoToProperties' first switch, which falls through from case to case. */
  method PrintOwn(props: string, data: seq<string>) returns (r: string)
    requires 1 <= |data| <= 4
    ensures r == props + Lists.Join(Reversed(data), ':')
  {
    var size := |data|;
    r := "";
    if size == 4 {
      r := data[3] + ":";
    }
    if size >= 3 {
      r := r + (data[2] + ":");
    }
    if size >= 2 {
      r := r + (data[1] + ":");
    }
    r := r + data[0];
    assert r == Lists.Join(Reversed(data), ':') by {
      if size == 1 {
        assert Reversed(data) == [data[0]];
        Joined(data[0], "", "", "");
      } else if size == 2 {
        assert Reversed(data) == [data[1], data[0]];
        Joined(data[1], data[0], "", "");
      } else if size == 3 {
        assert Reversed(data) == [data[2], data[1], data[0]];
        Joined(data[2], data[1], data[0], "");
      } else {
        assert Reversed(data) == [data[3], data[2], data[1], data[0]];
        Joined(data[3], data[2], data[1], data[0]);
      }
    }
    r := props + r;
  }

  /** The cases of the second one. */
  method PrintOnes(props: string, size: nat) returns (r: string)
    requires 1 <= size <= 4
    ensures r == props + Ones(4 - size)
  {
    r := props;
    if size == 1 {
      r := r + ":1";
    }
    if size <= 2 {
      r := r + ":1";
    }
    if size <= 3 {
      r := r + ":1";
    }
    assert Ones(1) == ":1" && Ones(2) == ":1" + ":1" && Ones(3) == ":1" + ":1" + ":1";
  }

  method PrintDims(props: string, dims: seq<int>) returns (r: string)
    ensures r == props + DimsText(dims)
  {
    r := props;
    if 1 <= |dims| <= 4 {
      ghost var own, ones := Lists.Join(Reversed(Numerals(dims)), ':'), Ones(4 - |dims|);
      r := PrintOwn(r, Numerals(dims));
      r := PrintOnes(r, |dims|);
      assert (props + own) + ones == props + (own + ones);
      DimsTextIs(dims);
    }
  }

  lemma JoinedSoFar(head: string, parts: seq<string>, i: nat)
    requires i < |parts|
    ensures var so := head + Lists.Join(parts[..i], ',');
            head + Lists.Join(parts[..i + 1], ',') == (if i > 0 then so + "," else so) + parts[i]
  {
    assert parts[..i + 1] == parts[..i] + [parts[i]];
    if i > 0 {
      Lists.JoinSnoc(parts[..i], parts[i], ',');
      assert [','] == ",";
    }
  }

  /** `info` is null or an array of infos. */
  method TensorInfoToProperties(type_: string, info: Option<seq<TensorInfo>>) returns (props: string)
    ensures props == if info.None? then "" else PropertiesText(type_, info.value)
  {
    props := "";
    if info.None? {
      return;
    }
    var infos := info.value;
    ghost var types, dims := TypeParts(infos), DimsParts(infos);
    props := " " + type_ + "type=";
    ghost var head := props;
    for i := 0 to |infos|
      invariant props == head + Lists.Join(types[..i], ',')
    {
      JoinedSoFar(head, types, i);
      if i > 0 {
        props := props + ",";
      }
      props := props + ToString(infos[i].type_);
    }
    assert types[..|infos|] == types;
    props := props + " " + type_ + "=";
    head := props;
    for i := 0 to |infos|
      invariant props == head + Lists.Join(dims[..i], ',')
    {
      JoinedSoFar(head, dims, i);
      if i > 0 {
        props := props + ",";
      }
      props := PrintDims(props, infos[i].dims);
    }
    assert dims[..|infos|] == dims;
  }

  // ---------- Parsing the dimensions ----------

  /** sscanf with `n` times %d and a colon between: the values read before something did not fit. */
  function ScanInts(s: string, n: nat): (xs: seq<int>)
    ensures |xs| <= n && forall i :: 0 <= i < |xs| ==> IsInt(xs[i])
    decreases n
  {
    if n == 0 then [] else
    match Decimal.ScanInt(s)
    case None => []
    case Some(found) =>
      [Wrap(found.0)] + (if found.1 != "" && found.1[0] == ':' then ScanInts(found.1[1..], n - 1) else [])
  }

  datatype Parsed = Parsed(ret: int, values: seq<int>)

  /** What a parser of `rank` dimensions returns, and the values it leaves when that is no error. */
  function ParseDims(s: string, rank: nat): Parsed
    requires 1 <= rank <= 4
  {
    var scanned := ScanInts(s, rank);
    if |scanned| < rank then Parsed(-EINVAL, [])
    else
      var values := (if rank < 4 then [1] else []) + Reversed(scanned);
      Parsed(Wrap(Product(values)), values)
  }

  lemma ThreeFactors(a: int, b: int, c: int)
    ensures Product([1, a]) == a
    ensures Product([1, a, b]) == a * b
    ensures Product([1, a, b, c]) == a * b * c
  {
    assert [1, a, b, c][..3] == [1, a, b];
    assert [1, a, b][..2] == [1, a];
    assert [1, a][..1] == [1];
    assert [1][..0] == [];
  }

  lemma FourFactors(a: int, b: int, c: int, d: int)
    ensures Product([a, b, c, d]) == a * b * c * d
  {
    assert [a, b, c, d][..3] == [a, b, c];
    assert [a, b, c][..2] == [a, b];
    assert [a, b][..1] == [a];
    assert [a][..0] == [];
    assert Product([a]) == a;
    assert Product([a, b]) == a * b;
  }

  /** Too few numbers are an error; else the last one read comes first, behind a batch of 1 unless there are four. */
  lemma ParseForms(s: string, rank: nat, x: seq<int>)
    requires 1 <= rank <= 4 && x == ScanInts(s, rank)
    ensures var parsed := ParseDims(s, rank);
            && (|x| < rank ==> parsed.ret == -EINVAL)
            && (|x| == rank == 1 ==> parsed == Parsed(x[0], [1, x[0]]))
            && (|x| == rank == 2 ==> parsed == Parsed(Wrap(x[1] * x[0]), [1, x[1], x[0]]))
            && (|x| == rank == 3 ==> parsed == Parsed(Wrap(x[2] * x[1] * x[0]), [1, x[2], x[1], x[0]]))
            && (|x| == rank == 4 ==> parsed == Parsed(Wrap(x[3] * x[2] * x[1] * x[0]), [x[3], x[2], x[1], x[0]]))
  {
    if |x| == rank {
      match rank
      case 1 =>
        ThreeFactors(x[0], 1, 1);
        assert [1] + Reversed(x) == [1, x[0]];
      case 2 =>
        ThreeFactors(x[1], x[0], 1);
        assert [1] + Reversed(x) == [1, x[1], x[0]];
      case 3 =>
        ThreeFactors(x[2], x[1], x[0]);
        assert [1] + Reversed(x) == [1, x[2], x[1], x[0]];
      case 4 =>
        FourFactors(x[3], x[2], x[1], x[0]);
        assert [] + Reversed(x) == [x[3], x[2], x[1], x[0]];
    }
  }

  /** Wrapping after every multiplication gives the wrapped product. */
  lemma ThreeScanned(s: seq<int>)
    requires |s| == 3
    ensures [1] + Reversed(s) == [1, s[2], s[1], s[0]]
    ensures Wrap(Wrap(s[2] * s[1]) * s[0]) == Wrap(Product([1] + Reversed(s)))
  {
    assert [1] + Reversed(s) == [1, s[2], s[1], s[0]];
    ThreeFactors(s[2], s[1], s[0]);
    WrapMul(s[2] * s[1], s[0]);
  }

  lemma FourScanned(s: seq<int>)
    requires |s| == 4
    ensures [] + Reversed(s) == [s[3], s[2], s[1], s[0]]
    ensures Wrap(Wrap(Wrap(s[3] * s[2]) * s[1]) * s[0]) == Wrap(Product([] + Reversed(s)))
  {
    assert [] + Reversed(s) == [s[3], s[2], s[1], s[0]];
    FourFactors(s[3], s[2], s[1], s[0]);
    WrapMul(s[3] * s[2], s[1]);
    WrapMul(s[3] * s[2] * s[1], s[0]);
  }

  /** sscanf: the values read go to `values[last]` and downwards. */
  method ScanInto(str: string, n: nat, values: array<int>, last: nat) returns (read: nat)
    requires n <= last + 1 <= values.Length
    modifies values
    ensures read == |ScanInts(str, n)|
    ensures forall k :: 0 <= k < read ==> values[last - k] == ScanInts(str, n)[k]
  {
    var scanned := ScanInts(str, n);
    for j := 0 to |scanned|
      invariant forall k :: 0 <= k < j ==> values[last - k] == scanned[k]
    {
      values[last - j] := scanned[j];
    }
    read := |scanned|;
  }

  method DimsParser1(str: string, values: array<int>) returns (ret: int)
    requires values.Length >= 2
    modifies values
    ensures ret == ParseDims(str, 1).ret
    ensures ret >= 0 ==> values[..2] == ParseDims(str, 1).values
  {
    var read := ScanInto(str, 1, values, 1);
    if read != 1 {
      return -EINVAL;
    }
    values[0] := 1;
    ThreeFactors(values[1], 1, 1);
    assert values[..2] == [1] + Reversed(ScanInts(str, 1)) == [1, values[1]];
    ret := values[1];
  }

  method DimsParser2(str: string, values: array<int>) returns (ret: int)
    requires values.Length >= 3
    modifies values
    ensures ret == ParseDims(str, 2).ret
    ensures ret >= 0 ==> values[..3] == ParseDims(str, 2).values
  {
    var read := ScanInto(str, 2, values, 2);
    if read != 2 {
      return -EINVAL;
    }
    values[0] := 1;
    ThreeFactors(values[1], values[2], 1);
    assert values[..3] == [1] + Reversed(ScanInts(str, 2)) == [1, values[1], values[2]];
    ret := Wrap(values[1] * values[2]);
  }

  method DimsParser3(str: string, values: array<int>) returns (ret: int)
    requires values.Length >= 4
    modifies values
    ensures ret == ParseDims(str, 3).ret
    ensures ret >= 0 ==> values[..4] == ParseDims(str, 3).values
  {
    var read := ScanInto(str, 3, values, 3);
    if read != 3 {
      return -EINVAL;
    }
    values[0] := 1;
    ThreeScanned(ScanInts(str, 3));
    assert values[..4] == [1, values[1], values[2], values[3]];
    ret := Wrap(Wrap(values[1] * values[2]) * values[3]);
  }

  method DimsParser4(str: string, values: array<int>) returns (ret: int)
    requires values.Length >= 4
    modifies values
    ensures ret == ParseDims(str, 4).ret
    ensures ret >= 0 ==> values[..4] == ParseDims(str, 4).values
  {
    var read := ScanInto(str, 4, values, 3);
    if read != 4 {
      return -EINVAL;
    }
    FourScanned(ScanInts(str, 4));
    assert values[..4] == [values[0], values[1], values[2], values[3]];
    ret := Wrap(Wrap(Wrap(values[0] * values[1]) * values[2]) * values[3]);
  }
}
