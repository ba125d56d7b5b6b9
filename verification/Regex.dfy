/** The regular expression matcher of grep (grep.c), against a declarative meaning of patterns.
    Strings are C strings without their terminating NUL. */
module Regex {

  /** What a pattern is made of: one character, a run of a character, or the end of the text;
      '.' stands for any character. */
  datatype Item = One(c: char) | Star(c: char) | End

  function Items(re: string): seq<Item>
  {
    if re == "" then []
    else if |re| > 1 && re[1] == '*' then [Star(re[0])] + Items(re[2..])
    else if re == "$" then [End]
    else [One(re[0])] + Items(re[1..])
  }

  predicate Fits(c: char, x: char) { c == '.' || c == x }

  /** The piece of text an item accounts for. */
  predicate Piece(it: Item, p: string)
  {
    match it
    case One(c) => |p| == 1 && Fits(c, p[0])
    case Star(c) => forall i :: 0 <= i < |p| ==> Fits(c, p[i])
    case End => p == ""
  }

  function Concat(parts: seq<string>): string
  {
    if parts == [] then "" else parts[0] + Concat(parts[1..])
  }

  /** parts splits the beginning of text into one piece for each item; End requires that nothing follows. */
  predicate Splits(items: seq<Item>, parts: seq<string>, text: string)
  {
    && |parts| == |items| && Concat(parts) <= text
    && (forall i :: 0 <= i < |items| ==> Piece(items[i], parts[i]))
    && (End in items ==> Concat(parts) == text)
  }

  /** The pattern matches at the beginning of text. */
  ghost predicate Here(re: string, text: string)
  {
    exists parts :: Splits(Items(re), parts, text)
  }

  /** The pattern matches somewhere, or at the beginning only if it starts with '^'. */
  ghost predicate Matches(re: string, text: string)
  {
    if re != "" && re[0] == '^' then Here(re[1..], text)
    else exists k :: 0 <= k <= |text| && Here(re, text[k..])
  }

  /** c* followed by re matches at the beginning of text. */
  ghost predicate StarThen(c: char, re: string, text: string, k: nat)
  {
    k <= |text| && (forall j :: 0 <= j < k ==> Fits(c, text[j])) && Here(re, text[k..])
  }

  // ---------- grep.c ----------

  method Match(re: string, text: string) returns (r: bool)
    ensures r <==> Matches(re, text)
  {
    if re != "" && re[0] == '^' {
      r := MatchHere(re[1..], text);
      return;
    }
    var t := 0;
    while true
      invariant 0 <= t <= |text|
      invariant forall k :: 0 <= k < t ==> !Here(re, text[k..])
      decreases |text| - t
    {
      r := MatchHere(re, text[t..]);
      if r { return true; }
      if t == |text| { return false; }
      t := t + 1;
    }
  }

  method MatchHere(re: string, text: string) returns (r: bool)
    ensures r <==> Here(re, text)
    decreases |re|, 0
  {
    if re == "" {
      assert Splits(Items(re), [], text);
      return true;
    }
    if |re| > 1 && re[1] == '*' {
      r := MatchStar(re[0], re[2..], text);
      StarUnfolds(re, text);
      return;
    }
    if re == "$" {
      EndUnfolds(text);
      return text == "";
    }
    OneUnfolds(re, text);
    if text != "" && (re[0] == '.' || re[0] == text[0]) {
      r := MatchHere(re[1..], text[1..]);
      return;
    }
    return false;
  }

  method MatchStar(c: char, re: string, text: string) returns (r: bool)
    ensures r <==> exists k :: StarThen(c, re, text, k)
    decreases |re|, 1
  {
    var t := 0;
    while true
      invariant 0 <= t <= |text|
      invariant forall j :: 0 <= j < t ==> Fits(c, text[j])
      invariant forall k :: 0 <= k < t ==> !Here(re, text[k..])
      decreases |text| - t
    {
      r := MatchHere(re, text[t..]);
      if r {
        assert StarThen(c, re, text, t);
        return true;
      }
      if t == |text| || !(text[t] == c || c == '.') { return false; }
      t := t + 1;
    }
  }

  // ---------- the meaning of the first item ----------

  lemma EndUnfolds(text: string)
    ensures Here("$", text) <==> text == ""
  {
    assert Items("$") == [End];
    if text == "" {
      assert Concat([""]) == "";
      assert Splits([End], [""], text);
    }
    forall parts | Splits([End], parts, text) ensures text == "" {
      assert parts == [parts[0]] && parts[0] == "" && Concat(parts) == "";
    }
  }

  lemma SplitsTail(it: Item, items: seq<Item>, p: string, parts: seq<string>, text: string)
    requires p <= text && Piece(it, p) && it != End
    ensures Splits([it] + items, [p] + parts, text) <==> Splits(items, parts, text[|p|..])
  {
    var all := [it] + items;
    assert Concat([p] + parts) == p + Concat(parts);
    assert text == p + text[|p|..];
    assert p + Concat(parts) <= text <==> Concat(parts) <= text[|p|..] by {
      if Concat(parts) <= text[|p|..] { assert p + Concat(parts) == (p + text[|p|..])[..|p| + |Concat(parts)|]; }
      if p + Concat(parts) <= text { assert Concat(parts) == text[|p|..][..|Concat(parts)|]; }
    }
    assert End in all <==> End in items;
    forall i | 0 <= i < |items| ensures all[i + 1] == items[i] {}
  }

  lemma OneUnfolds(re: string, text: string)
    requires re != "" && re != "$" && !(|re| > 1 && re[1] == '*')
    ensures Here(re, text) <==> text != "" && Fits(re[0], text[0]) && Here(re[1..], text[1..])
  {
    var items := Items(re[1..]);
    assert Items(re) == [One(re[0])] + items;
    if Here(re, text) {
      var parts :| Splits(Items(re), parts, text);
      assert parts == [parts[0]] + parts[1..];
      assert parts[0] <= Concat(parts) <= text;
      SplitsTail(One(re[0]), items, parts[0], parts[1..], text);
    }
    if text != "" && Fits(re[0], text[0]) && Here(re[1..], text[1..]) {
      var parts :| Splits(items, parts, text[1..]);
      SplitsTail(One(re[0]), items, text[..1], parts, text);
      assert Splits(Items(re), [text[..1]] + parts, text);
    }
  }

  lemma StarUnfolds(re: string, text: string)
    requires |re| > 1 && re[1] == '*'
    ensures Here(re, text) <==> exists k :: StarThen(re[0], re[2..], text, k)
  {
    var items := Items(re[2..]);
    assert Items(re) == [Star(re[0])] + items;
    if Here(re, text) {
      var parts :| Splits(Items(re), parts, text);
      var p := parts[0];
      assert parts == [p] + parts[1..];
      assert p <= Concat(parts) <= text;
      SplitsTail(Star(re[0]), items, p, parts[1..], text);
      assert Piece(Items(re)[0], p);
      assert StarThen(re[0], re[2..], text, |p|);
    }
    if k: nat :| StarThen(re[0], re[2..], text, k) {
      var parts :| Splits(items, parts, text[k..]);
      SplitsTail(Star(re[0]), items, text[..k], parts, text);
      assert Splits(Items(re), [text[..k]] + parts, text);
    }
  }
}
