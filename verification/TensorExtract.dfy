/** Tensor infos read back from the element's properties, and the round trips through text. */
module TensorExtract {
  import opened Prelude
  import Decimal
  import Lists
  import opened TensorType
  import opened TensorText

  type Properties = map<string, string>

  /** `Fault`: a vector or the table of parsers is read out of bounds, or a dimension is left unset. */
  datatype Extracted = Infos(infos: seq<TensorInfo>) | Error(code: int) | Fault

  /** A property that is null and one that is empty are treated alike. */
  function Property(props: Properties, key: string): string { if key in props then props[key] else "" }

  /** snprintf into 24 characters. */
  function Attribute(type_: string, suffix: string): string {
    var s := type_ + suffix;
    if |s| > 23 then s[..23] else s
  }

  /** The ranks read from the rest of a list, with `rank` and `mult` accumulated so far. */
  function RanksFrom(s: string, rank: int, mult: int): seq<int> {
    if s == "" then [rank]
    else if Decimal.IsDigit(s[0]) then
      RanksFrom(s[1..], Wrap(rank + Wrap(mult * Decimal.DigitValue(s[0]))), Wrap(mult * 10))
    else if s[0] == ',' then [rank] + RanksFrom(s[1..], 0, 1)
    else []
  }

  function Types(names: seq<string>): (r: seq<Type>)
    ensures |r| == |names|
  {
    seq(|names|, i requires 0 <= i < |names| => FromString(names[i]))
  }

  /** What a rank and a dimension text make of one info. */
  function Built(t: Type, dims: string, rank: int): Extracted {
    if rank < 1 || rank > 4 then Fault
    else
      var parsed := ParseDims(dims, rank);
      if parsed.ret < 0 then Error(parsed.ret)
      else if rank == 4 then Fault
      else Infos([TensorInfo(t, Wrap(Size(t) * parsed.ret), None, parsed.values)])
  }

  function Prepend(infos: seq<TensorInfo>, rest: Extracted): Extracted {
    match rest
    case Infos(more) => Infos(infos + more)
    case _ => rest
  }

  /** The infos from the `i`-th on. */
  function Build(types: seq<Type>, dims: seq<string>, ranks: seq<int>, i: nat): Extracted
    requires i <= |types|
    decreases |types| - i
  {
    if i == |types| then Infos([])
    else if (ranks != [] && i >= |ranks|) || i >= |dims| then Fault
    else
      var built := Built(types[i], dims[i], if ranks != [] then ranks[i] else 3);
      if built.Infos? then Prepend(built.infos, Build(types, dims, ranks, i + 1)) else built
  }

  function Extract(props: Properties, type_: string): Extracted {
    var ranks, types, dims :=
      Property(props, Attribute(type_, "ranks")), Property(props, Attribute(type_, "type")), Property(props, type_);
    if types == "" || dims == "" then Error(-EFAULT)
    else
      var rankVector := if ranks == "" then [] else RanksFrom(ranks, 0, 1);
      Build(Types(Lists.Split(types, ',')), Lists.Split(dims, ','), rankVector, 0)
  }

  // ---------- What is extracted ----------

  /** A property's name is that of the type and what of the suffix fits into 23 characters. */
  lemma AttributeFits(type_: string, suffix: string)
    ensures |Attribute(type_, suffix)| <= 23 && Attribute(type_, suffix) <= type_ + suffix
    ensures |Attribute(type_, suffix)| < 23 ==> Attribute(type_, suffix) == type_ + suffix
  {
  }

  /** Without its types, or without its dimensions, nothing is extracted. */
  lemma ExtractNeedsBoth(props: Properties, type_: string)
    requires |type_| <= 18
    requires var types := type_ + "type";
             types !in props || props[types] == "" || type_ !in props || props[type_] == ""
    ensures Extract(props, type_) == Error(-EFAULT)
  {
    assert Attribute(type_, "type") == type_ + "type";
  }

  /**
   One info: its rank is the first of the list, or three without one.  The parser of that rank says what comes
   of its dimensions; ranks that no parser is there for, and four, for which one dimension is left unset, are faults.
   */
  lemma ExtractOneInfo(props: Properties, type_: string, ranks: seq<int>)
    requires |type_| <= 18 && type_ + "type" in props && type_ in props
    requires props[type_ + "type"] != "" && props[type_] != ""
    requires ',' !in props[type_ + "type"] && ',' !in props[type_]
    requires ranks == (if type_ + "ranks" in props && props[type_ + "ranks"] != "" then
                         RanksFrom(props[type_ + "ranks"], 0, 1)
                       else [])
    ensures OneInfo(Extract(props, type_), FromString(props[type_ + "type"]), props[type_],
                    if ranks == [] then 3 else ranks[0])
  {
    var types, dims := props[type_ + "type"], props[type_];
    assert Attribute(type_, "type") == type_ + "type" && Attribute(type_, "ranks") == type_ + "ranks";
    NotSplit(types);
    NotSplit(dims);
    assert Types([types]) == [FromString(types)];
    BuildOneInfo(FromString(types), dims, ranks);
  }

  ghost predicate OneInfo(e: Extracted, t: Type, dims: string, rank: int) {
    && (rank < 1 || rank > 4 ==> e.Fault?)
    && (1 <= rank <= 4 ==>
          var parsed := ParseDims(dims, rank);
          && (parsed.ret < 0 ==> e == Error(parsed.ret))
          && (parsed.ret >= 0 && rank == 4 ==> e.Fault?)
          && (parsed.ret >= 0 && rank < 4 ==>
                e == Infos([TensorInfo(t, Wrap(Size(t) * parsed.ret), None, parsed.values)])))
  }

  lemma NotSplit(s: string)
    requires ',' !in s
    ensures Lists.Split(s, ',') == [s]
  {
    assert s[..|s|] == s;
    Lists.FindAt(s, ',', |s|);
  }

  lemma BuiltOneInfo(t: Type, dims: string, rank: int)
    ensures OneInfo(Built(t, dims, rank), t, dims, rank)
  {
  }

  lemma BuildOneInfo(t: Type, dims: string, ranks: seq<int>)
    ensures OneInfo(Build([t], [dims], ranks, 0), t, dims, if ranks == [] then 3 else ranks[0])
  {
    var rank := if ranks == [] then 3 else ranks[0];
    BuiltOneInfo(t, dims, rank);
    assert Build([t], [dims], ranks, 1) == Infos([]);
    assert Build([t], [dims], ranks, 0) == Built(t, dims, rank);
  }

  /** A list of types longer than that of the ranks, if there is one, or than that of the dimensions, is a fault. */
  lemma ExtractOutOfBounds(types: seq<Type>, dims: seq<string>, ranks: seq<int>, i: nat)
    requires i < |types| && (i >= |dims| || (ranks != [] && i >= |ranks|))
    ensures Build(types, dims, ranks, i).Fault?
  {
  }

  // ---------- The scanners ----------

  method ReadRanks(prop: string) returns (rankVector: seq<int>)
    ensures rankVector == if prop == "" then [] else RanksFrom(prop, 0, 1)
  {
    rankVector := [];
    if prop == "" {
      return;
    }
    var rank, mult, done, i := 0, 1, false, 0;
    while !done
      invariant i <= |prop| || done
      invariant !done ==> rankVector + RanksFrom(prop[i..], rank, mult) == RanksFrom(prop, 0, 1)
      invariant done ==> rankVector == RanksFrom(prop, 0, 1)
      decreases |prop| - i, !done
    {
      if i == |prop| {
        done := true;
        rankVector := rankVector + [rank];
      } else if Decimal.IsDigit(prop[i]) {
        rank := Wrap(rank + Wrap(mult * Decimal.DigitValue(prop[i])));
        mult := Wrap(mult * 10);
      } else if prop[i] == ',' {
        rankVector := rankVector + [rank];
        rank, mult := 0, 1;
      } else {
        done := true;
      }
      i := i + 1;
    }
  }

  /** The scan of a comma list, as it is done for the types and again for the dimensions. */
  method CutAtCommas(prop: string) returns (parts: seq<string>)
    ensures parts == Lists.Split(prop, ',')
  {
    ghost var all := Lists.Split(prop, ',');
    parts := [];
    var done, offset, i := false, 0, 0;
    assert prop[0..] == prop;
    while !done
      invariant !done ==> offset <= i <= |prop| && ',' !in prop[offset..i]
      invariant !done ==> parts + Lists.Split(prop[offset..], ',') == all
      invariant done ==> parts == all
      decreases |prop| - i, !done
    {
      if i == |prop| || prop[i] == ',' {
        CutOne(prop, parts, Lists.Split(prop, ','), offset, i);
        done := i == |prop|;
        parts := parts + [prop[offset..i]];
        offset := i + 1;
      } else {
        SkipOne(prop, offset, i);
      }
      i := i + 1;
    }
  }

  lemma SkipOne(s: string, offset: nat, i: nat)
    requires offset <= i < |s| && ',' !in s[offset..i] && s[i] != ','
    ensures ',' !in s[offset..i + 1]
  {
    assert s[offset..i + 1] == s[offset..i] + [s[i]];
  }

  lemma CutOne(s: string, parts: seq<string>, all: seq<string>, offset: nat, i: nat)
    requires offset <= i <= |s| && ',' !in s[offset..i] && (i < |s| ==> s[i] == ',')
    requires parts + Lists.Split(s[offset..], ',') == all
    ensures i == |s| ==> parts + [s[offset..i]] == all
    ensures i < |s| ==> parts + [s[offset..i]] + Lists.Split(s[i + 1..], ',') == all
  {
    Lists.SplitAt(s, ',', offset, i);
  }

  lemma PrependTwice(a: seq<TensorInfo>, b: seq<TensorInfo>, rest: Extracted)
    ensures Prepend(a, Prepend(b, rest)) == Prepend(a + b, rest)
  {
    if rest.Infos? {
      assert a + (b + rest.infos) == (a + b) + rest.infos;
    }
  }

  method ExtractTensorInfo(element: Properties, type_: string) returns (result: Extracted)
    ensures result == Extract(element, type_)
  {
    var rankVector := ReadRanks(Property(element, Attribute(type_, "ranks")));
    var typeString := Property(element, Attribute(type_, "type"));
    if typeString == "" {
      return Error(-EFAULT);
    }
    var typeNames := CutAtCommas(typeString);
    var typeVector := Types(typeNames);
    var dimsString := Property(element, type_);
    if dimsString == "" {
      return Error(-EFAULT);
    }
    var dimsVector := CutAtCommas(dimsString);
    result := BuildInfos(typeVector, dimsVector, rankVector);
  }

  /** The loop that makes the infos. */
  method BuildInfos(types: seq<Type>, dims: seq<string>, ranks: seq<int>) returns (result: Extracted)
    ensures result == Build(types, dims, ranks, 0)
  {
    var tensorInfo: seq<TensorInfo> := [];
    for i := 0 to |types|
      invariant Build(types, dims, ranks, 0) == Prepend(tensorInfo, Build(types, dims, ranks, i))
    {
      var built := ExtractNext(types, dims, ranks, i);
      if !built.Infos? {
        return built;
      }
      PrependTwice(tensorInfo, built.infos, Build(types, dims, ranks, i + 1));
      tensorInfo := tensorInfo + built.infos;
    }
    result := Infos(tensorInfo);
  }

  /** The body of that loop, up to the parser. */
  method ExtractNext(types: seq<Type>, dims: seq<string>, ranks: seq<int>, i: nat) returns (built: Extracted)
    requires i < |types|
    ensures Build(types, dims, ranks, i) ==
            if built.Infos? then Prepend(built.infos, Build(types, dims, ranks, i + 1)) else built
  {
    var rank := 3;
    if |ranks| > 0 {
      if i >= |ranks| {
        return Fault;
      }
      rank := ranks[i];
    }
    if i >= |dims| {
      return Fault;
    }
    built := ExtractOne(types[i], dims[i], rank);
  }

  /** The rest of the body: the dimensions array is allocated and a parser fills it. */
  method ExtractOne(t: Type, dimsString: string, rank: int) returns (result: Extracted)
    ensures result == Built(t, dimsString, rank)
  {
    if rank < 1 || rank > 4 {
      return Fault;
    }
    var dims := new int[rank + 1];
    var ret := RunParser(dimsString, rank, dims);
    if ret < 0 {
      return Error(ret);
    }
    if rank == 4 {
      return Fault;
    }
    assert dims[..] == dims[..rank + 1];
    result := Infos([TensorInfo(t, Wrap(Size(t) * ret), None, dims[..])]);
  }

  /** The table of parsers. */
  method RunParser(str: string, rank: nat, values: array<int>) returns (ret: int)
    requires 1 <= rank <= 4 && values.Length == rank + 1
    modifies values
    ensures ret == ParseDims(str, rank).ret
    ensures ret >= 0 ==> values[..if rank == 4 then 4 else rank + 1] == ParseDims(str, rank).values
  {
    if rank == 1 {
      ret := DimsParser1(str, values);
    } else if rank == 2 {
      ret := DimsParser2(str, values);
    } else if rank == 3 {
      ret := DimsParser3(str, values);
    } else {
      ret := DimsParser4(str, values);
    }
  }
}
