/** The regular expression matcher of grep.c.  A C string is its characters without the final NUL. */
module Grep {
  // ----- what a pattern means -----

  datatype Item = One(c: char) | Any | Star(c: char) | StarAny | End

  /** The pattern as a list of items: c*, .*, $ at the end, . and literal characters. */
  function Parse(re: string): seq<Item> {
    if re == [] then []
    else if |re| > 1 && re[1] == '*' then [if re[0] == '.' then StarAny else Star(re[0])] + Parse(re[2..])
    else if re == "$" then [End]
    else [if re[0] == '.' then Any else One(re[0])] + Parse(re[1..])
  }

  /** How an item is written. */
  function PrintItem(i: Item): string {
    match i
    case One(c) => [c]
    case Any => "."
    case Star(c) => [c, '*']
    case StarAny => ".*"
    case End => "$"
  }

  function Print(items: seq<Item>): string {
    if items == [] then [] else PrintItem(items[0]) + Print(items[1..])
  }

  /** The item can stand before these others without being read as something else. */
  predicate ItemFits(i: Item, rest: seq<Item>) {
    match i
    case One(c) => c != '.' && (c == '$' ==> rest != []) && (rest != [] ==> PrintItem(rest[0])[0] != '*')
    case Any => rest != [] ==> PrintItem(rest[0])[0] != '*'
    case Star(c) => c != '.'
    case StarAny => true
    case End => rest == []
  }

  predicate Readable(items: seq<Item>) {
    items == [] || (ItemFits(items[0], items[1..]) && Readable(items[1..]))
  }

  /** Every pattern is written as the items it is parsed into. */
  lemma {:induction false} PrintParse(re: string)
    ensures Print(Parse(re)) == re && Readable(Parse(re))
  {
    if re != [] {
      var items := Parse(re);
      if |re| > 1 && re[1] == '*' {
        PrintParse(re[2..]);
        assert items[1..] == Parse(re[2..]);
        assert re == [re[0], '*'] + re[2..];
      } else if re != "$" {
        PrintParse(re[1..]);
        assert items[1..] == Parse(re[1..]);
        assert re == [re[0]] + re[1..];
        PrintFirst(Parse(re[1..]));
      }
    }
  }

  lemma PrintFirst(items: seq<Item>)
    ensures items == [] <==> Print(items) == []
    ensures items != [] ==> Print(items)[0] == PrintItem(items[0])[0]
  {
  }

  /** Items that can be told apart are parsed back. */
  lemma {:induction false} ParsePrint(items: seq<Item>)
    requires Readable(items)
    ensures Parse(Print(items)) == items
  {
    if items != [] {
      var head, rest := PrintItem(items[0]), Print(items[1..]);
      ParsePrint(items[1..]);
      PrintFirst(items[1..]);
      assert (head + rest)[|head|..] == rest;
      assert items == [items[0]] + items[1..];
    }
  }

  /** The strings that an item stands for. */
  predicate InItem(i: Item, w: string) {
    match i
    case One(c) => w == [c]
    case Any => |w| == 1
    case Star(c) => forall k | 0 <= k < |w| :: w[k] == c
    case StarAny => true
    case End => w == []
  }

  function Concat(pieces: seq<string>): string {
    if pieces == [] then [] else pieces[0] + Concat(pieces[1..])
  }

  /** w is in the language of the items: it is cut into one piece for each item. */
  ghost predicate InLanguage(items: seq<Item>, w: string) {
    exists pieces: seq<string> | |pieces| == |items| && Concat(pieces) == w :: forall i | 0 <= i < |items| :: InItem(items[i], pieces[i])
  }

  /** Some beginning of the text is in the language; all of it if the items end with $. */
  ghost predicate MatchesAt(items: seq<Item>, text: string) {
    exists n | 0 <= n <= |text| :: InLanguage(items, text[..n]) && (End in items ==> n == |text|)
  }

  /** What grep promises: a match at the beginning after ^, anywhere otherwise. */
  ghost predicate Matches(re: string, text: string) {
    if re != [] && re[0] == '^' then MatchesAt(Parse(re[1..]), text)
    else exists k | 0 <= k <= |text| :: MatchesAt(Parse(re), text[k..])
  }

  // ----- the recursion of matchhere -----

  /** The first k characters can be taken by c*. */
  predicate Taken(c: char, text: string, k: nat)
    requires k <= |text|
  {
    forall j | 0 <= j < k :: text[j] == c || c == '.'
  }

  ghost predicate Here(re: string, text: string)
    decreases |re|, 0
  {
    if re == [] then true
    else if |re| > 1 && re[1] == '*' then StarHere(re[0], re[2..], text)
    else if re == "$" then text == []
    else text != [] && (re[0] == '.' || re[0] == text[0]) && Here(re[1..], text[1..])
  }

  ghost predicate StarHere(c: char, re: string, text: string)
    decreases |re|, 1
  {
    exists k | 0 <= k <= |text| :: Taken(c, text, k) && Here(re, text[k..])
  }

  // ----- the recursion and the language -----

  lemma InLanguageCons(i: Item, items: seq<Item>, v: string, w: string)
    requires InItem(i, v) && InLanguage(items, w)
    ensures InLanguage([i] + items, v + w)
  {
    var pieces: seq<string> :| |pieces| == |items| && Concat(pieces) == w && forall x | 0 <= x < |items| :: InItem(items[x], pieces[x]);
    var all := [v] + pieces;
    assert all[1..] == pieces;
    assert |all| == |[i] + items| && Concat(all) == v + w;
  }

  lemma InLanguageSplit(i: Item, items: seq<Item>, w: string) returns (k: nat)
    requires InLanguage([i] + items, w)
    ensures k <= |w| && InItem(i, w[..k]) && InLanguage(items, w[k..])
  {
    var all: seq<string> :| |all| == |[i] + items| && Concat(all) == w && forall x | 0 <= x < |[i] + items| :: InItem(([i] + items)[x], all[x]);
    k := |all[0]|;
    assert ([i] + items)[0] == i;
    assert w[..k] == all[0] && w[k..] == Concat(all[1..]);
    forall x | 0 <= x < |items|
      ensures InItem(items[x], all[1..][x])
    {
      assert ([i] + items)[x + 1] == items[x];
    }
  }

  lemma Slices(text: string, n: nat, k: nat)
    requires k <= n <= |text|
    ensures text[..n][..k] == text[..k] && text[..n][k..] == text[k..][..n - k] && text[..k] + text[k..][..n - k] == text[..n]
  {
  }

  lemma MatchesHead(i: Item, items: seq<Item>, text: string) returns (k: nat)
    requires i != End && MatchesAt([i] + items, text)
    ensures k <= |text| && InItem(i, text[..k]) && MatchesAt(items, text[k..])
  {
    var n: nat :| n <= |text| && InLanguage([i] + items, text[..n]) && (End in [i] + items ==> n == |text|);
    hide InLanguage;
    k := InLanguageSplit(i, items, text[..n]);
    Slices(text, n, k);
    assert End in items ==> End in [i] + items;
    assert InLanguage(items, text[k..][..n - k]);
  }

  lemma MatchesTail(i: Item, items: seq<Item>, text: string, k: nat)
    requires i != End && k <= |text| && InItem(i, text[..k]) && MatchesAt(items, text[k..])
    ensures MatchesAt([i] + items, text)
  {
    var n: nat :| n <= |text[k..]| && InLanguage(items, text[k..][..n]) && (End in items ==> n == |text[k..]|);
    hide InLanguage;
    InLanguageCons(i, items, text[..k], text[k..][..n]);
    Slices(text, k + n, k);
    assert InLanguage([i] + items, text[..k + n]);
  }

  /** Matching one more item. */
  lemma MatchesCons(i: Item, items: seq<Item>, text: string)
    requires i != End
    ensures MatchesAt([i] + items, text) <==> exists k | 0 <= k <= |text| :: InItem(i, text[..k]) && MatchesAt(items, text[k..])
  {
    hide MatchesAt;
    if MatchesAt([i] + items, text) {
      var k := MatchesHead(i, items, text);
    }
    if k :| 0 <= k <= |text| && InItem(i, text[..k]) && MatchesAt(items, text[k..]) {
      MatchesTail(i, items, text, k);
    }
  }

  lemma MatchesNothing(text: string)
    ensures MatchesAt([], text)
  {
    var none: seq<string> := [];
    assert Concat(none) == text[..0];
    assert InLanguage([], text[..0]);
  }

  lemma MatchesEnd(text: string)
    ensures MatchesAt([End], text) <==> text == []
  {
    if text == [] {
      var pieces: seq<string> := [[]];
      assert Concat(pieces) == text[..0];
      assert InLanguage([End], text[..0]);
    }
    if MatchesAt([End], text) {
      var n :| 0 <= n <= |text| && InLanguage([End], text[..n]) && (End in [End] ==> n == |text|);
      var k := InLanguageSplit(End, [], text[..n]);
      var none: seq<string> :| |none| == 0 && Concat(none) == text[..n][k..];
    }
  }

  /** The recursion finds exactly the texts with a beginning in the language of the pattern. */
  lemma {:induction false} StarIsLanguage(re: string, text: string)
    requires |re| > 1 && re[1] == '*'
    requires forall k | 0 <= k <= |text| :: Here(re[2..], text[k..]) <==> MatchesAt(Parse(re[2..]), text[k..])
    ensures Here(re, text) <==> MatchesAt(Parse(re), text)
  {
    var i := if re[0] == '.' then StarAny else Star(re[0]);
    MatchesCons(i, Parse(re[2..]), text);
    hide MatchesAt;
    forall k | 0 <= k <= |text|
      ensures Taken(re[0], text, k) <==> InItem(i, text[..k])
    {
    }
  }

  lemma {:induction false} HereIsLanguage(re: string, text: string)
    ensures Here(re, text) <==> MatchesAt(Parse(re), text)
    decreases |re|
  {
    if re == [] {
      MatchesNothing(text);
    } else if |re| > 1 && re[1] == '*' {
      forall k | 0 <= k <= |text|
        ensures Here(re[2..], text[k..]) <==> MatchesAt(Parse(re[2..]), text[k..])
      {
        HereIsLanguage(re[2..], text[k..]);
      }
      StarIsLanguage(re, text);
    } else if re == "$" {
      MatchesEnd(text);
    } else {
      var i := if re[0] == '.' then Any else One(re[0]);
      MatchesCons(i, Parse(re[1..]), text);
      if text != [] {
        HereIsLanguage(re[1..], text[1..]);
        assert InItem(i, text[..1]) <==> re[0] == '.' || re[0] == text[0];
      }
    }
  }

  // ----- the code -----

  /** matchhere */
  method MatchHere(re: string, text: string) returns (b: bool)
    ensures b <==> Here(re, text)
    decreases |re|, 0
  {
    if re == [] {
      return true;
    }
    if |re| > 1 && re[1] == '*' {
      b := MatchStar(re[0], re[2..], text);
      return;
    }
    if re[0] == '$' && |re| == 1 {
      return text == [];
    }
    if text != [] && (re[0] == '.' || re[0] == text[0]) {
      b := MatchHere(re[1..], text[1..]);
      return;
    }
    b := false;
  }

  /** matchstar */
  method MatchStar(c: char, re: string, text: string) returns (b: bool)
    ensures b <==> StarHere(c, re, text)
    decreases |re|, 1
  {
    var k := 0;
    while true
      invariant 0 <= k <= |text| && Taken(c, text, k)
      invariant forall j | 0 <= j < k :: !Here(re, text[j..])
      decreases |text| - k
    {
      var here := MatchHere(re, text[k..]);
      if here {
        return true;
      }
      if k == |text| || !(text[k] == c || c == '.') {
        return false;
      }
      k := k + 1;
    }
  }

  /** match: exactly what the pattern means. */
  method Match(re: string, text: string) returns (b: bool)
    ensures b <==> Matches(re, text)
  {
    if re != [] && re[0] == '^' {
      HereIsLanguage(re[1..], text);
      b := MatchHere(re[1..], text);
      return;
    }
    var k := 0;
    while true
      invariant 0 <= k <= |text|
      invariant forall j | 0 <= j < k :: !MatchesAt(Parse(re), text[j..])
      decreases |text| - k
    {
      HereIsLanguage(re, text[k..]);
      var here := MatchHere(re, text[k..]);
      if here {
        return true;
      }
      if k == |text| {
        return false;
      }
      k := k + 1;
    }
  }
}
