// The regular-expression matcher of grep.c against the language its patterns denote.
// Strings are sequences without their terminating NUL.
module Grep {

  datatype Item = One(c: char) | Star(c: char)

  predicate Accepts(c: char, x: char) {
    c == '.' || c == x
  }

  // The items of a pattern after any leading '^': a '*' after a character is a star, a last '$' is an anchor.
  function Items(re: string): seq<Item> {
    if re == [] then []
    else if |re| > 1 && re[1] == '*' then [Star(re[0])] + Items(re[2..])
    else if re == "$" then []
    else [One(re[0])] + Items(re[1..])
  }

  predicate Anchored(re: string) {
    if re == [] then false
    else if |re| > 1 && re[1] == '*' then Anchored(re[2..])
    else if re == "$" then true
    else Anchored(re[1..])
  }

  predicate AllAccept(c: char, w: string) {
    forall i :: 0 <= i < |w| ==> Accepts(c, w[i])
  }

  // w is in the language of the items.
  ghost predicate Denotes(items: seq<Item>, w: string) {
    if items == [] then w == []
    else
      match items[0]
      case One(c) => |w| > 0 && Accepts(c, w[0]) && Denotes(items[1..], w[1..])
      case Star(c) => exists k :: 0 <= k <= |w| && AllAccept(c, w[..k]) && Denotes(items[1..], w[k..])
  }

  // The pattern matches a prefix of text, all of it if anchored.
  ghost predicate Fits(items: seq<Item>, end: bool, text: string) {
    exists j :: 0 <= j <= |text| && (end ==> j == |text|) && Denotes(items, text[..j])
  }

  ghost predicate Here(re: string, text: string) {
    Fits(Items(re), Anchored(re), text)
  }

  // c* and then re match at the start of text.
  ghost predicate StarHere(c: char, re: string, text: string) {
    exists k :: 0 <= k <= |text| && AllAccept(c, text[..k]) && Here(re, text[k..])
  }

  // What grep promises for a pattern and a line.
  ghost predicate Matches(re: string, text: string) {
    if |re| > 0 && re[0] == '^' then Here(re[1..], text)
    else exists i :: 0 <= i <= |text| && Here(re, text[i..])
  }

  lemma FitsNothing(end: bool, text: string)
    ensures Fits([], end, text) <==> (end ==> text == [])
  {
    if end ==> text == [] {
      assert text[..0] == [] && Denotes([], text[..0]);
    }
  }

  lemma FitsOne(c: char, items: seq<Item>, end: bool, text: string)
    ensures Fits([One(c)] + items, end, text) <==> |text| > 0 && Accepts(c, text[0]) && Fits(items, end, text[1..])
  {
    var all := [One(c)] + items;
    assert all[1..] == items;
    if Fits(all, end, text) {
      var j :| 0 <= j <= |text| && (end ==> j == |text|) && Denotes(all, text[..j]);
      assert text[..j][1..] == text[1..][..j - 1];
    }
    if |text| > 0 && Accepts(c, text[0]) && Fits(items, end, text[1..]) {
      var j :| 0 <= j <= |text| - 1 && (end ==> j == |text| - 1) && Denotes(items, text[1..][..j]);
      assert text[..j + 1][1..] == text[1..][..j];
      assert Denotes(all, text[..j + 1]);
    }
  }

  lemma FitsStar(c: char, items: seq<Item>, end: bool, text: string)
    ensures Fits([Star(c)] + items, end, text) <==>
            exists k :: 0 <= k <= |text| && AllAccept(c, text[..k]) && Fits(items, end, text[k..])
  {
    var all := [Star(c)] + items;
    assert all[1..] == items;
    if Fits(all, end, text) {
      var j :| 0 <= j <= |text| && (end ==> j == |text|) && Denotes(all, text[..j]);
      var k :| 0 <= k <= j && AllAccept(c, text[..j][..k]) && Denotes(items, text[..j][k..]);
      assert text[..j][..k] == text[..k] && text[..j][k..] == text[k..][..j - k];
      assert Fits(items, end, text[k..]);
    }
    if k :| 0 <= k <= |text| && AllAccept(c, text[..k]) && Fits(items, end, text[k..]) {
      var j :| 0 <= j <= |text| - k && (end ==> j == |text| - k) && Denotes(items, text[k..][..j]);
      assert text[..k + j][..k] == text[..k] && text[..k + j][k..] == text[k..][..j];
      assert Denotes(all, text[..k + j]);
    }
  }

  // The first k characters are accepted by c.
  lemma Longer(c: char, text: string, k: int)
    requires 0 <= k < |text| && AllAccept(c, text[..k])
    ensures AllAccept(c, text[..k + 1]) <==> Accepts(c, text[k])
  {
    assert text[..k + 1] == text[..k] + [text[k]];
  }

  lemma NoLonger(c: char, text: string, k: int, j: int)
    requires 0 <= k < j <= |text| && AllAccept(c, text[..j])
    ensures Accepts(c, text[k])
  {
    assert text[..j][k] == text[k];
  }

  method Match(re: string, text: string) returns (r: bool)
    ensures r <==> Matches(re, text)
  {
    if |re| > 0 && re[0] == '^' {
      r := MatchHere(re[1..], text);
      return;
    }
    var i := 0;
    while true
      invariant 0 <= i <= |text| && forall k :: 0 <= k < i ==> !Here(re, text[k..])
      decreases |text| - i
    {
      r := MatchHere(re, text[i..]);
      if r {
        return true;
      }
      if i == |text| {
        return false;
      }
      i := i + 1;
    }
  }

  method MatchHere(re: string, text: string) returns (r: bool)
    ensures r <==> Here(re, text)
    decreases |re|, 0
  {
    hide Fits, Denotes, AllAccept;
    if re == [] {
      FitsNothing(false, text);
      return true;
    }
    if |re| > 1 && re[1] == '*' {
      FitsStar(re[0], Items(re[2..]), Anchored(re[2..]), text);
      r := MatchStar(re[0], re[2..], text);
      return;
    }
    if re[0] == '$' && |re| == 1 {
      FitsNothing(true, text);
      return text == [];
    }
    FitsOne(re[0], Items(re[1..]), Anchored(re[1..]), text);
    if text != [] && (re[0] == '.' || re[0] == text[0]) {
      r := MatchHere(re[1..], text[1..]);
      return;
    }
    return false;
  }

  method MatchStar(c: char, re: string, text: string) returns (r: bool)
    ensures r <==> StarHere(c, re, text)
    decreases |re|, 1
  {
    hide Here;
    var k := 0;
    while true
      invariant 0 <= k <= |text| && AllAccept(c, text[..k]) && forall j :: 0 <= j < k ==> !Here(re, text[j..])
      decreases |text| - k
    {
      r := MatchHere(re, text[k..]);
      if r {
        return true;
      }
      if k == |text| || !(text[k] == c || c == '.') {
        forall j | k < j <= |text| ensures !AllAccept(c, text[..j]) {
          if AllAccept(c, text[..j]) { NoLonger(c, text, k, j); }
        }
        return false;
      }
      Longer(c, text, k);
      k := k + 1;
    }
  }
}
