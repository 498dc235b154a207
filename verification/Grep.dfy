/** The matcher of user/grep.c, for strings without their final NUL. */
module Grep {
  function Fits(c: char, d: char): bool {
    c == '.' || c == d
  }

  function MatchHere(re: string, text: string): bool
    decreases |re|, |text|, 0
  {
    if re == "" then true
    else if |re| > 1 && re[1] == '*' then MatchStar(re[0], re[2..], text)
    else if re == "$" then text == ""
    else if text != "" && Fits(re[0], text[0]) then MatchHere(re[1..], text[1..])
    else false
  }

  function MatchStar(c: char, re: string, text: string): bool
    decreases |re|, |text|, 1
  {
    MatchHere(re, text) || (text != "" && Fits(c, text[0]) && MatchStar(c, re, text[1..]))
  }

  function Search(re: string, text: string): bool
    decreases |text|
  {
    MatchHere(re, text) || (text != "" && Search(re, text[1..]))
  }

  // ----- the program -----

  method Matchhere(re: string, text: string) returns (r: bool)
    ensures r == MatchHere(re, text)
    decreases |re|, |text|, 0
  {
    if re == "" {
      return true;
    }
    if |re| > 1 && re[1] == '*' {
      r := Matchstar(re[0], re[2..], text);
      return;
    }
    if re[0] == '$' && |re| == 1 {
      return text == "";
    }
    if text != "" && (re[0] == '.' || re[0] == text[0]) {
      r := Matchhere(re[1..], text[1..]);
      return;
    }
    return false;
  }

  method Matchstar(c: char, re: string, text: string) returns (r: bool)
    ensures r == MatchStar(c, re, text)
    decreases |re|, |text|, 1
  {
    var rest := text;
    while true
      invariant |rest| <= |text| && MatchStar(c, re, text) == MatchStar(c, re, rest)
      decreases |rest|
    {
      var here := Matchhere(re, rest);
      if here {
        return true;
      }
      if rest == "" || !(rest[0] == c || c == '.') {
        break;
      }
      rest := rest[1..];
    }
    return false;
  }

  method Match(re: string, text: string) returns (r: bool)
    ensures r <==> if re != "" && re[0] == '^' then MatchesAt(Items(re[1..]), text, 0)
                   else exists j: nat :: j <= |text| && MatchesAt(Items(re), text, j)
  {
    MatchMeaning(re, text);
    if re != "" && re[0] == '^' {
      r := Matchhere(re[1..], text);
      return;
    }
    var rest := text;
    while true
      invariant Search(re, text) == Search(re, rest)
      decreases |rest|
    {
      var here := Matchhere(re, rest);
      if here {
        return true;
      }
      if rest == "" {
        break;
      }
      rest := rest[1..];
    }
    return false;
  }

  // ----- what a pattern means -----

  /** A pattern is a list of items: one character, any number of one character, the end of the text. */
  datatype Item = One(c: char) | Star(c: char) | End

  function Items(re: string): seq<Item>
    decreases |re|
  {
    if re == "" then []
    else if |re| > 1 && re[1] == '*' then [Star(re[0])] + Items(re[2..])
    else if re == "$" then [End]
    else [One(re[0])] + Items(re[1..])
  }

  /** Item it spells text[i..j]. */
  predicate Spells(it: Item, text: string, i: nat, j: nat) {
    i <= j <= |text|
    && match it
       case One(c) => j == i + 1 && Fits(c, text[i])
       case Star(c) => forall k :: i <= k < j ==> Fits(c, text[k])
       case End => i == j == |text|
  }

  /** The items spell out the text between consecutive cuts. */
  ghost predicate SpellsAll(items: seq<Item>, text: string, cuts: seq<nat>) {
    && |cuts| == |items| + 1 && cuts[0] <= |text|
    && forall n: nat :: n < |items| ==> Spells(items[n], text, cuts[n], cuts[n + 1])
  }

  /** The items spell some stretch of the text that starts at i. */
  ghost predicate MatchesAt(items: seq<Item>, text: string, i: nat) {
    exists cuts: seq<nat> :: SpellsAll(items, text, cuts) && cuts[0] == i
  }

  lemma ConsCuts(it: Item, items: seq<Item>, text: string, i: nat, j: nat)
    requires Spells(it, text, i, j) && MatchesAt(items, text, j)
    ensures MatchesAt([it] + items, text, i)
  {
    var cuts: seq<nat> :| SpellsAll(items, text, cuts) && cuts[0] == j;
    var cuts': seq<nat> := [i] + cuts;
    assert SpellsAll([it] + items, text, cuts') by {
      forall n: nat | n < |[it] + items| ensures Spells(([it] + items)[n], text, cuts'[n], cuts'[n + 1]) {
        if n > 0 {
          assert Spells(items[n - 1], text, cuts[n - 1], cuts[n]);
        }
      }
    }
  }

  lemma SplitCuts(it: Item, items: seq<Item>, text: string, i: nat) returns (j: nat)
    requires MatchesAt([it] + items, text, i)
    ensures Spells(it, text, i, j) && MatchesAt(items, text, j)
  {
    var cuts: seq<nat> :| SpellsAll([it] + items, text, cuts) && cuts[0] == i;
    assert Spells(([it] + items)[0], text, cuts[0], cuts[1]);
    j := cuts[1];
    var rest := cuts[1..];
    assert SpellsAll(items, text, rest) by {
      forall n: nat | n < |items| ensures Spells(items[n], text, rest[n], rest[n + 1]) {
        assert Spells(([it] + items)[n + 1], text, cuts[n + 1], cuts[n + 2]);
      }
    }
  }

  /** matchhere is true exactly when the pattern spells a prefix of the rest of the text. */
  lemma {:induction false} MatchHereMeaning(re: string, text: string, i: nat)
    requires i <= |text|
    ensures MatchHere(re, text[i..]) <==> MatchesAt(Items(re), text, i)
    decreases |re|, |text| - i, 0
  {
    if re == "" {
      assert SpellsAll([], text, [i]);
    } else if |re| > 1 && re[1] == '*' {
      MatchStarMeaning(re[0], re[2..], text, i);
      if MatchStar(re[0], re[2..], text[i..]) {
        var j: nat :| Spells(Star(re[0]), text, i, j) && MatchesAt(Items(re[2..]), text, j);
        ConsCuts(Star(re[0]), Items(re[2..]), text, i, j);
      }
      if MatchesAt(Items(re), text, i) {
        var j := SplitCuts(Star(re[0]), Items(re[2..]), text, i);
      }
    } else if re == "$" {
      EndMeaning(text, i);
    } else {
      if i < |text| {
        MatchHereMeaning(re[1..], text, i + 1);
        assert text[i..][1..] == text[i + 1..];
      }
      if MatchHere(re, text[i..]) {
        ConsCuts(One(re[0]), Items(re[1..]), text, i, i + 1);
      }
      if MatchesAt(Items(re), text, i) {
        var j := SplitCuts(One(re[0]), Items(re[1..]), text, i);
      }
    }
  }

  lemma EndMeaning(text: string, i: nat)
    requires i <= |text|
    ensures MatchesAt([End], text, i) <==> text[i..] == ""
  {
    if text[i..] == "" {
      var cuts: seq<nat> := [i, i];
      assert SpellsAll([End], text, cuts);
    }
    if MatchesAt([End], text, i) {
      var cuts: seq<nat> :| SpellsAll([End], text, cuts) && cuts[0] == i;
      assert Spells([End][0], text, cuts[0], cuts[1]);
    }
  }

  /** matchstar is true exactly when some number of leading characters fit and the rest matches. */
  lemma {:induction false} MatchStarMeaning(c: char, re: string, text: string, i: nat)
    requires i <= |text|
    ensures MatchStar(c, re, text[i..]) <==>
            exists j: nat :: Spells(Star(c), text, i, j) && MatchesAt(Items(re), text, j)
    decreases |re|, |text| - i, 1
  {
    MatchHereMeaning(re, text, i);
    assert Spells(Star(c), text, i, i);
    if i < |text| {
      MatchStarMeaning(c, re, text, i + 1);
      assert text[i..][1..] == text[i + 1..];
      StarStep(c, re, text, i);
    } else {
      forall j: nat | Spells(Star(c), text, i, j) ensures j == i {
      }
    }
  }

  lemma StarStep(c: char, re: string, text: string, i: nat)
    requires i < |text|
    ensures (exists j: nat :: Spells(Star(c), text, i, j) && MatchesAt(Items(re), text, j)) <==>
            MatchesAt(Items(re), text, i)
            || (Fits(c, text[i]) && exists j: nat :: Spells(Star(c), text, i + 1, j) && MatchesAt(Items(re), text, j))
  {
    assert Spells(Star(c), text, i, i);
    forall j: nat | j > i ensures Spells(Star(c), text, i, j) <==> Fits(c, text[i]) && Spells(Star(c), text, i + 1, j) {
    }
  }

  lemma {:induction false} SearchMeaning(re: string, text: string, i: nat)
    requires i <= |text|
    ensures Search(re, text[i..]) <==> exists j: nat :: i <= j <= |text| && MatchesAt(Items(re), text, j)
    decreases |text| - i
  {
    MatchHereMeaning(re, text, i);
    if i < |text| {
      SearchMeaning(re, text, i + 1);
      assert text[i..][1..] == text[i + 1..];
    }
  }

  /** match(re, text): the pattern spells some stretch of the text; the stretch starts the text if
      the pattern starts with ^. */
  lemma MatchMeaning(re: string, text: string)
    ensures re != "" && re[0] == '^' ==> (MatchHere(re[1..], text) <==> MatchesAt(Items(re[1..]), text, 0))
    ensures Search(re, text) <==> exists j: nat :: j <= |text| && MatchesAt(Items(re), text, j)
  {
    assert text[0..] == text;
    SearchMeaning(re, text, 0);
    if re != "" {
      MatchHereMeaning(re[1..], text, 0);
    }
  }

  // ----- the same in plain characters -----

  /** Without * and $, a pattern is compared character by character, a dot with anything. */
  lemma {:induction false} PlainHere(re: string, text: string)
    requires '*' !in re && '$' !in re
    ensures MatchHere(re, text) <==>
            |re| <= |text| && forall k: nat :: k < |re| ==> re[k] == '.' || re[k] == text[k]
  {
    if re != "" && text != "" {
      PlainHere(re[1..], text[1..]);
      assert (forall k: nat :: k < |re| - 1 && k < |text| - 1 ==> re[1..][k] == '.' || re[1..][k] == text[1..][k]) <==>
             (forall k: nat :: 0 < k < |re| && k < |text| ==> re[k] == '.' || re[k] == text[k]) by {
        assert forall k: nat :: 0 < k < |re| && k < |text| ==> re[1..][k - 1] == re[k] && text[1..][k - 1] == text[k];
      }
    }
  }

  /** The text has w at i. */
  predicate Has(text: string, i: nat, w: string) {
    i + |w| <= |text| && text[i..i + |w|] == w
  }

  /** So a pattern without special characters is found exactly where the text has it. */
  lemma PlainFound(re: string, text: string)
    requires '*' !in re && '$' !in re && '.' !in re && '^' !in re
    ensures Search(re, text) <==> exists i: nat :: Has(text, i, re)
  {
    assert text[0..] == text;
    SearchMeaning(re, text, 0);
    forall i: nat | i <= |text| ensures MatchesAt(Items(re), text, i) <==> Has(text, i, re) {
      MatchHereMeaning(re, text, i);
      PlainHere(re, text[i..]);
      assert Has(text, i, re) ==> forall k: nat :: k < |re| ==> text[i..i + |re|][k] == text[i..][k];
    }
  }

  /** And c* stands for any number of c, .* for anything. */
  lemma StarHere(c: char, re: string, text: string)
    ensures MatchStar(c, re, text) <==>
            exists j: nat ::
              j <= |text| && MatchHere(re, text[j..]) && forall k: nat :: k < j ==> c == '.' || c == text[k]
  {
    assert text[0..] == text;
    MatchStarMeaning(c, re, text, 0);
    forall j: nat | j <= |text| ensures MatchHere(re, text[j..]) <==> MatchesAt(Items(re), text, j) {
      MatchHereMeaning(re, text, j);
    }
  }
}
