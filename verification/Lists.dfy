/** Lists in text: parts with a separator between them. */
module Lists {

  /** The place of the first `c`, or the length. */
  function Find(s: string, c: char): (i: nat)
    ensures i <= |s| && c !in s[..i] && (i < |s| ==> s[i] == c)
  {
    if s == "" || s[0] == c then 0 else
    var i := 1 + Find(s[1..], c);
    assert s[..i] == [s[0]] + s[1..][..i - 1];
    i
  }

  function Split(s: string, c: char): (parts: seq<string>)
    ensures |parts| >= 1
    decreases |s|
  {
    var i := Find(s, c);
    if i == |s| then [s] else [s[..i]] + Split(s[i + 1..], c)
  }

  function Join(parts: seq<string>, c: char): string {
    if parts == [] then ""
    else if |parts| == 1 then parts[0]
    else parts[0] + [c] + Join(parts[1..], c)
  }

  lemma {:induction false} FindAt(s: string, c: char, i: nat)
    requires i <= |s| && c !in s[..i] && (i < |s| ==> s[i] == c)
    ensures Find(s, c) == i
  {
    if i > 0 {
      assert s[..i] == [s[0]] + s[1..][..i - 1];
      FindAt(s[1..], c, i - 1);
    }
  }

  lemma {:induction false} SplitJoin(parts: seq<string>, c: char)
    requires parts != [] && forall p :: p in parts ==> c !in p
    ensures Split(Join(parts, c), c) == parts
  {
    var s := Join(parts, c);
    if |parts| == 1 {
      assert s[..|s|] == parts[0];
      FindAt(s, c, |s|);
    } else {
      var n := |parts[0]|;
      assert s[..n] == parts[0];
      FindAt(s, c, n);
      SplitJoin(parts[1..], c);
      assert s[n + 1..] == Join(parts[1..], c);
    }
  }

  lemma {:induction false} JoinSnoc(parts: seq<string>, part: string, c: char)
    requires parts != []
    ensures Join(parts + [part], c) == Join(parts, c) + [c] + part
  {
    var all := parts + [part];
    if |parts| == 1 {
      assert all[1..] == [part];
    } else {
      JoinSnoc(parts[1..], part, c);
      assert all[1..] == parts[1..] + [part];
    }
  }

  lemma {:induction false} JoinLacks(parts: seq<string>, c: char, x: char)
    requires x != c && forall p :: p in parts ==> x !in p
    ensures x !in Join(parts, c)
  {
    if |parts| > 1 {
      JoinLacks(parts[1..], c, x);
    }
  }

  /**
   A scan that has cut off parts up to `offset` and seen no separator from there to `i`, meets one at `i` or the
   end.
   */
  lemma SplitAt(s: string, c: char, offset: nat, i: nat)
    requires offset <= i <= |s| && c !in s[offset..i] && (i < |s| ==> s[i] == c)
    ensures Split(s[offset..], c) == [s[offset..i]] + (if i == |s| then [] else Split(s[i + 1..], c))
  {
    var t := s[offset..];
    assert t[..i - offset] == s[offset..i];
    FindAt(t, c, i - offset);
    if i == |s| {
      assert t[..|t|] == t;
    } else {
      assert t[i - offset + 1..] == s[i + 1..];
    }
  }
}
