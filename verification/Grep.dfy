/**
 The regular-expression matcher of user/grep.c (Kernighan and Pike, The Practice of Programming, chapter
 9), against the language its patterns denote. Strings are C strings of bytes.
 */
module Grep {
  import opened CString

  const CARET: Byte := '^' as int
  const DOLLAR: Byte := '$' as int
  const DOT: Byte := '.' as int
  const STAR: Byte := '*' as int

  // ----- the language of a pattern

  /** One character, or any number of one. */
  datatype Item = One(c: Byte) | Many(c: Byte)

  /** What a pattern asks for: items, from the start of the text, up to its end. */
  datatype Regex = Regex(atStart: bool, items: seq<Item>, atEnd: bool)

  predicate Fits(c: Byte, x: Byte) {
    c == DOT || c == x
  }

  /** The string is in the language of the items. */
  ghost predicate InLanguage(items: seq<Item>, s: seq<Byte>)
    decreases |items|
  {
    if items == [] then s == []
    else match items[0]
      case One(c) => s != [] && Fits(c, s[0]) && InLanguage(items[1..], s[1..])
      case Many(c) => exists k :: Repeats(c, s, k) && InLanguage(items[1..], s[k..])
  }

  ghost predicate Repeats(c: Byte, s: seq<Byte>, k: int) {
    0 <= k <= |s| && forall i | 0 <= i < k :: Fits(c, s[i])
  }

  /** Some substring of the text is in the language, anchored as asked. */
  ghost predicate Denotes(r: Regex, text: seq<Byte>) {
    exists i, j :: Within(r, text, i, j) && InLanguage(r.items, text[i..j])
  }

  ghost predicate Within(r: Regex, text: seq<Byte>, i: int, j: int) {
    0 <= i <= j <= |text| && (r.atStart ==> i == 0) && (r.atEnd ==> j == |text|)
  }

  // ----- how patterns are spelled

  function SpellItems(items: seq<Item>): seq<Byte> {
    if items == [] then []
    else (match items[0] case One(c) => [c] case Many(c) => [c, STAR]) + SpellItems(items[1..])
  }

  /** The items, and the dollar behind them. */
  function SpellRest(items: seq<Item>, atEnd: bool): seq<Byte> {
    SpellItems(items) + if atEnd then [DOLLAR] else []
  }

  function Spell(r: Regex): seq<Byte> {
    (if r.atStart then [CARET] else []) + SpellRest(r.items, r.atEnd)
  }

  /**
   The items a spelling can be read as: no character is a NUL, a star right behind a single character would
   be read with it, and so would a caret in front or a dollar at the end.
   */
  ghost predicate Spellable(r: Regex) {
    && ItemsSpellable(r.items)
    && (!r.atStart && r.items != [] ==> r.items[0].c != CARET)
    && (!r.atEnd && r.items != [] ==> r.items[|r.items| - 1] != One(DOLLAR))
  }

  ghost predicate ItemsSpellable(items: seq<Item>) {
    && (forall i | 0 <= i < |items| :: items[i].c != 0)
    && forall i | 0 < i < |items| && items[i].c == STAR :: items[i - 1].Many?
  }

  /** The pattern, as it is spelled, matches the text. */
  ghost predicate Matches(re: seq<Byte>, text: seq<Byte>) {
    exists r :: Spellable(r) && Spell(r) == re && Denotes(r, text)
  }

  /** Some prefix of the text is in the language; the whole of it when the pattern ends with the text. */
  ghost predicate MatchesHere(items: seq<Item>, atEnd: bool, text: seq<Byte>) {
    exists j :: 0 <= j <= |text| && (atEnd ==> j == |text|) && InLanguage(items, text[..j])
  }

  // ----- laws of the language

  /** The first `h` bytes are the item's. */
  ghost predicate Takes(item: Item, s: seq<Byte>, h: int) {
    match item
    case One(c) => s != [] && Fits(c, s[0]) && h == 1
    case Many(c) => Repeats(c, s, h)
  }

  lemma Unfolds(items: seq<Item>, s: seq<Byte>)
    requires items != []
    ensures InLanguage(items, s) <==>
      exists h: nat :: h <= |s| && Takes(items[0], s, h) && InLanguage(items[1..], s[h..])
  {
    if items[0].Many? && InLanguage(items, s) {
      var k :| Repeats(items[0].c, s, k) && InLanguage(items[1..], s[k..]);
    }
  }

  lemma TakesPrefix(item: Item, s: seq<Byte>, h: nat, k: nat)
    requires h <= k <= |s|
    ensures Takes(item, s[..k], h) <==> Takes(item, s, h)
  {
    if item.Many? && Repeats(item.c, s[..k], h) {
      forall i | 0 <= i < h ensures Fits(item.c, s[i]) {
        assert s[..k][i] == s[i];
      }
    }
  }

  /** The first `k` bytes are in one language, the rest in the other. */
  ghost predicate Splits(xs: seq<Item>, ys: seq<Item>, s: seq<Byte>, k: int) {
    0 <= k <= |s| && InLanguage(xs, s[..k]) && InLanguage(ys, s[k..])
  }

  lemma {:induction false} ConcatSplits(xs: seq<Item>, ys: seq<Item>, s: seq<Byte>) returns (k: nat)
    requires InLanguage(xs + ys, s)
    ensures Splits(xs, ys, s, k)
    decreases |xs|
  {
    hide InLanguage, Takes;
    if xs == [] {
      k := 0;
      assert xs + ys == ys && s[..0] == [] && s[0..] == s;
      NothingIn();
    } else {
      assert (xs + ys)[1..] == xs[1..] + ys && (xs + ys)[0] == xs[0];
      Unfolds(xs + ys, s);
      var h: nat :| h <= |s| && Takes(xs[0], s, h) && InLanguage(xs[1..] + ys, s[h..]);
      var j := ConcatSplits(xs[1..], ys, s[h..]);
      k := h + j;
      SplitShift(s, h, j);
      TakesPrefix(xs[0], s, h, k);
      Unfolds(xs, s[..k]);
    }
  }

  lemma NothingIn()
    ensures InLanguage([], [])
  {
  }

  lemma {:induction false} SplitsConcat(xs: seq<Item>, ys: seq<Item>, s: seq<Byte>, k: nat)
    requires Splits(xs, ys, s, k)
    ensures InLanguage(xs + ys, s)
    decreases |xs|
  {
    if xs == [] {
      assert xs + ys == ys && s[k..] == s;
    } else {
      hide InLanguage, Takes;
      assert (xs + ys)[1..] == xs[1..] + ys && (xs + ys)[0] == xs[0];
      Unfolds(xs, s[..k]);
      var h: nat :| h <= k && Takes(xs[0], s[..k], h) && InLanguage(xs[1..], s[..k][h..]);
      SplitShift(s, h, k - h);
      SplitsConcat(xs[1..], ys, s[h..], k - h);
      TakesPrefix(xs[0], s, h, k);
      Unfolds(xs + ys, s);
    }
  }

  /** A language is what its parts are, one behind the other. */
  lemma InLanguageConcat(xs: seq<Item>, ys: seq<Item>, s: seq<Byte>)
    ensures InLanguage(xs + ys, s) <==> exists k :: Splits(xs, ys, s, k)
  {
    hide InLanguage;
    if InLanguage(xs + ys, s) {
      var k := ConcatSplits(xs, ys, s);
    }
    if k: nat :| Splits(xs, ys, s, k) {
      SplitsConcat(xs, ys, s, k);
    }
  }

  lemma SplitShift(s: seq<Byte>, h: nat, k: nat)
    requires h + k <= |s|
    ensures s[..h + k][h..] == s[h..][..k] && s[h + k..] == s[h..][k..]
  {
  }

  /** A single character is that character, and a dot is any. */
  lemma SingleLaw(c: Byte, s: seq<Byte>)
    ensures InLanguage([One(c)], s) <==> |s| == 1 && (c == '.' as int || s[0] == c)
  {
    assert [One(c)][1..] == [];
  }

  /** A star is none or more of its character: the least set with the empty string, closed under one more. */
  lemma StarLaws(c: Byte, x: Byte, s: seq<Byte>)
    ensures InLanguage([Many(c)], [])
    ensures InLanguage([Many(c)], [x] + s) <==> InLanguage([One(c)], [x]) && InLanguage([Many(c)], s)
  {
    StarIs(c, []);
    StarIs(c, s);
    StarIs(c, [x] + s);
    SingleLaw(c, [x]);
    if forall i | 0 <= i < |[x] + s| :: Fits(c, ([x] + s)[i]) {
      forall i | 0 <= i < |s| ensures Fits(c, s[i]) {
        assert ([x] + s)[i + 1] == s[i];
      }
      assert ([x] + s)[0] == x;
    }
  }

  lemma StarIs(c: Byte, s: seq<Byte>)
    ensures InLanguage([Many(c)], s) <==> forall i | 0 <= i < |s| :: Fits(c, s[i])
  {
    assert [Many(c)][1..] == [];
    if forall i | 0 <= i < |s| :: Fits(c, s[i]) {
      assert Repeats(c, s, |s|) && InLanguage([], s[|s|..]);
    }
  }

  // ----- a spelling is read in one way

  /** What the bytes left to read and the items left to match have to do with each other. */
  ghost predicate Reads(re: seq<Byte>, items: seq<Item>, atEnd: bool) {
    && ItemsSpellable(items) && (!atEnd && items != [] ==> items[|items| - 1] != One(DOLLAR))
    && re == SpellRest(items, atEnd)
  }

  /** The first two bytes tell the first item. */
  lemma ReadsFirst(re: seq<Byte>, items: seq<Item>, atEnd: bool)
    requires Reads(re, items, atEnd)
    ensures re == [] <==> items == [] && !atEnd
    ensures |re| >= 2 && re[1] == STAR <==> items != [] && items[0].Many?
    ensures re == [DOLLAR] <==> items == [] && atEnd
    ensures items != [] ==>
      re != [] && re[0] == items[0].c
      && Reads(re[if items[0].Many? then 2 else 1..], items[1..], atEnd)
  {
    if items != [] {
      var rest := SpellRest(items[1..], atEnd);
      assert re == (if items[0].One? then [items[0].c] else [items[0].c, STAR]) + rest;
      assert re[0] == items[0].c && (|items| > 1 ==> |re| >= 2);
      if |items| > 1 {
        assert items[1..][0] == items[1] && SpellItems(items[1..])[0] == items[1].c;
        assert items[1..][|items| - 2] == items[|items| - 1];
      }
      forall i | 0 < i < |items[1..]| && items[1..][i].c == STAR ensures items[1..][i - 1].Many? {
        assert items[i + 1].c == STAR;
      }
    }
  }

  lemma {:induction false} ReadsOnce(re: seq<Byte>, items: seq<Item>, atEnd: bool, items': seq<Item>, atEnd': bool)
    requires Reads(re, items, atEnd) && Reads(re, items', atEnd')
    ensures items == items' && atEnd == atEnd'
    decreases |items|
  {
    hide Reads;
    ReadsFirst(re, items, atEnd);
    ReadsFirst(re, items', atEnd');
    if items != [] {
      ReadsOnce(re[if items[0].Many? then 2 else 1..], items[1..], atEnd, items'[1..], atEnd');
      assert items == [items[0]] + items[1..] && items' == [items'[0]] + items'[1..];
    }
  }

  lemma {:induction false} ReadsSome(re: CString) returns (items: seq<Item>, atEnd: bool)
    ensures Reads(re, items, atEnd)
    decreases |re|
  {
    hide Reads;
    if re == [] {
      items, atEnd := [], false;
      ReadsNothing();
    } else if re == [DOLLAR] {
      items, atEnd := [], true;
      ReadsNothing();
    } else {
      var star := |re| >= 2 && re[1] == STAR;
      var rest: CString := re[if star then 2 else 1..];
      var tail;
      tail, atEnd := ReadsSome(rest);
      items := [if star then Many(re[0]) else One(re[0])] + tail;
      ReadsMore(re, star, tail, atEnd);
    }
  }

  lemma ReadsNothing()
    ensures Reads([], [], false) && Reads([DOLLAR], [], true)
  {
  }

  /** One item more in front. */
  lemma ReadsMore(re: CString, star: bool, tail: seq<Item>, atEnd: bool)
    requires re != [] && re != [DOLLAR] && star == (|re| >= 2 && re[1] == STAR)
    requires Reads(re[if star then 2 else 1..], tail, atEnd)
    ensures Reads(re, [if star then Many(re[0]) else One(re[0])] + tail, atEnd)
  {
    hide SpellRest, ItemsSpellable;
    var first, rest := if star then Many(re[0]) else One(re[0]), re[if star then 2 else 1..];
    SpellMore(first, tail, atEnd);
    RestHead(tail, atEnd);
    SpellableMore(first, tail);
    assert re == (if star then [re[0], STAR] else [re[0]]) + rest;
    var items := [first] + tail;
    assert tail != [] ==> items[|items| - 1] == tail[|tail| - 1];
  }

  lemma SpellMore(first: Item, tail: seq<Item>, atEnd: bool)
    ensures SpellRest([first] + tail, atEnd)
            == (if first.Many? then [first.c, STAR] else [first.c]) + SpellRest(tail, atEnd)
  {
    assert ([first] + tail)[1..] == tail;
  }

  lemma RestHead(items: seq<Item>, atEnd: bool)
    ensures var re := SpellRest(items, atEnd);
            if items == [] then re == if atEnd then [DOLLAR] else [] else re != [] && re[0] == items[0].c
  {
  }

  lemma SpellableMore(first: Item, tail: seq<Item>)
    requires ItemsSpellable(tail) && first.c != 0 && (tail != [] && tail[0].c == STAR ==> first.Many?)
    ensures ItemsSpellable([first] + tail)
  {
    var items := [first] + tail;
    forall i | 0 < i < |items| && items[i].c == STAR ensures items[i - 1].Many? {
      assert items[i] == tail[i - 1] && (i > 1 ==> items[i - 1] == tail[i - 2]);
    }
  }

  /** Every pattern is the spelling of one regular expression, and of no other. */
  lemma EveryPattern(re: CString) returns (r: Regex)
    ensures Spellable(r) && Spell(r) == re
    ensures forall r' | Spellable(r') && Spell(r') == re :: r' == r
  {
    var atStart := re != [] && re[0] == CARET;
    var behind: CString := if atStart then re[1..] else re;
    var items, atEnd := ReadsSome(behind);
    r := Regex(atStart, items, atEnd);
    SpellReads(r, re);
    forall r' | Spellable(r') && Spell(r') == re ensures r' == r {
      SpellReads(r', re);
      ReadsFirst(behind, items, atEnd);
      ReadsOnce(behind, items, atEnd, r'.items, r'.atEnd);
    }
  }

  lemma SpellReads(r: Regex, re: seq<Byte>)
    ensures Spellable(r) && Spell(r) == re <==>
      && r.atStart == (re != [] && re[0] == CARET)
      && Reads(if re != [] && re[0] == CARET then re[1..] else re, r.items, r.atEnd)
  {
    hide ItemsSpellable, SpellRest;
    var rest := SpellRest(r.items, r.atEnd);
    RestHead(r.items, r.atEnd);
    assert [] + rest == rest && ([CARET] + rest)[1..] == rest;
    if re != [] && re[0] == CARET {
      assert re == [CARET] + re[1..];
    }
  }

  // ----- how the language unfolds along the text

  lemma HereEmpty(text: seq<Byte>)
    ensures MatchesHere([], false, text)
    ensures MatchesHere([], true, text) <==> text == []
  {
    assert text[..0] == [];
    assert InLanguage([], text[..0]);
  }

  lemma HereOne(c: Byte, rest: seq<Item>, atEnd: bool, text: seq<Byte>)
    ensures MatchesHere([One(c)] + rest, atEnd, text) <==>
            text != [] && Fits(c, text[0]) && MatchesHere(rest, atEnd, text[1..])
  {
    var items := [One(c)] + rest;
    assert items[1..] == rest;
    if MatchesHere(items, atEnd, text) {
      var j :| 0 <= j <= |text| && (atEnd ==> j == |text|) && InLanguage(items, text[..j]);
      assert text[..j][1..] == text[1..][..j - 1];
    }
    if text != [] && Fits(c, text[0]) && MatchesHere(rest, atEnd, text[1..]) {
      var j :| 0 <= j <= |text[1..]| && (atEnd ==> j == |text[1..]|) && InLanguage(rest, text[1..][..j]);
      assert text[..j + 1][1..] == text[1..][..j];
      assert InLanguage(items, text[..j + 1]);
    }
  }

  lemma HereMany(c: Byte, rest: seq<Item>, atEnd: bool, text: seq<Byte>)
    ensures MatchesHere([Many(c)] + rest, atEnd, text) <==>
            exists k :: Repeats(c, text, k) && MatchesHere(rest, atEnd, text[k..])
  {
    var items := [Many(c)] + rest;
    assert items[1..] == rest;
    if MatchesHere(items, atEnd, text) {
      var j :| 0 <= j <= |text| && (atEnd ==> j == |text|) && InLanguage(items, text[..j]);
      var k :| Repeats(c, text[..j], k) && InLanguage(rest, text[..j][k..]);
      assert text[..j][k..] == text[k..][..j - k];
      assert forall i | 0 <= i < k :: text[..j][i] == text[i];
      assert Repeats(c, text, k) && MatchesHere(rest, atEnd, text[k..]);
    }
    if k: nat :| Repeats(c, text, k) && MatchesHere(rest, atEnd, text[k..]) {
      var j :| 0 <= j <= |text[k..]| && (atEnd ==> j == |text[k..]|) && InLanguage(rest, text[k..][..j]);
      assert text[..k + j][k..] == text[k..][..j];
      assert Repeats(c, text[..k + j], k);
      assert InLanguage(items, text[..k + j]);
    }
  }

  lemma DenotesHere(r: Regex, text: seq<Byte>)
    ensures Denotes(r, text) <==>
      exists i :: 0 <= i <= |text| && (r.atStart ==> i == 0) && MatchesHere(r.items, r.atEnd, text[i..])
  {
    hide InLanguage;
    if i, j :| Within(r, text, i, j) && InLanguage(r.items, text[i..j]) {
      assert text[i..j] == text[i..][..j - i];
      assert MatchesHere(r.items, r.atEnd, text[i..]);
    }
    if i :| 0 <= i <= |text| && (r.atStart ==> i == 0) && MatchesHere(r.items, r.atEnd, text[i..]) {
      var k :| 0 <= k <= |text[i..]| && (r.atEnd ==> k == |text[i..]|) && InLanguage(r.items, text[i..][..k]);
      assert text[i..i + k] == text[i..][..k];
      assert Within(r, text, i, i + k);
    }
  }

  // ----- the matcher

  /** The pattern matches exactly the texts with a substring in the language it spells. */
  method Match(re: CString, text: CString) returns (b: bool)
    ensures b <==> Matches(re, text)
    ensures forall r | Spellable(r) && Spell(r) == re :: b <==> Denotes(r, text)
  {
    hide InLanguage, MatchesHere, Spell, Spellable, Denotes, Reads;
    ghost var r := EveryPattern(re);
    SpellReads(r, re);
    DenotesHere(r, text);
    assert text[0..] == text;
    if At(re, 0) == CARET {
      b := MatchHere(re[1..], text, r.items, r.atEnd);
      return;
    }
    var i := 0;
    b := MatchHere(re, text, r.items, r.atEnd);
    while !b && i < |text|
      invariant 0 <= i <= |text| && (b <==> MatchesHere(r.items, r.atEnd, text[i..]))
      invariant forall j | 0 <= j < i :: !MatchesHere(r.items, r.atEnd, text[j..])
    {
      i := i + 1;
      b := MatchHere(re, text[i..], r.items, r.atEnd);
    }
  }

  method MatchHere(re: CString, text: CString, ghost items: seq<Item>, ghost atEnd: bool) returns (b: bool)
    requires Reads(re, items, atEnd)
    ensures b <==> MatchesHere(items, atEnd, text)
    decreases |re|, 0
  {
    hide Reads, MatchesHere;
    ReadsFirst(re, items, atEnd);
    HereEmpty(text);
    if At(re, 0) == 0 {
      return true;
    }
    if At(re, 1) == STAR {
      assert items == [Many(re[0])] + items[1..];
      HereMany(re[0], items[1..], atEnd, text);
      b := MatchStar(At(re, 0), re[2..], text, items[1..], atEnd);
      return;
    }
    if At(re, 0) == DOLLAR && At(re, 1) == 0 {
      return At(text, 0) == 0;
    }
    assert items == [One(re[0])] + items[1..];
    HereOne(re[0], items[1..], atEnd, text);
    if At(text, 0) != 0 && (At(re, 0) == DOT || At(re, 0) == At(text, 0)) {
      b := MatchHere(re[1..], text[1..], items[1..], atEnd);
      return;
    }
    return false;
  }

  method MatchStar(c: Byte, re: CString, text: CString, ghost items: seq<Item>, ghost atEnd: bool) returns (b: bool)
    requires Reads(re, items, atEnd)
    ensures b <==> exists k :: Repeats(c, text, k) && MatchesHere(items, atEnd, text[k..])
    decreases |re|, 1
  {
    hide Reads, MatchesHere;
    var k := 0;
    while true
      invariant Repeats(c, text, k) && forall j | 0 <= j < k :: !MatchesHere(items, atEnd, text[j..])
      decreases |text| - k
    {
      var here := MatchHere(re, text[k..], items, atEnd);
      if here {
        return true;
      }
      if !(At(text, k) != 0 && (At(text, k) == c || c == DOT)) {
        assert forall j | Repeats(c, text, j) :: j <= k;
        return false;
      }
      k := k + 1;
    }
  }

  // ----- patterns without metacharacters

  ghost predicate Plain(re: CString) {
    && (forall i | 0 <= i < |re| :: re[i] != STAR && re[i] != DOT)
    && (re != [] ==> re[0] != CARET && re[|re| - 1] != DOLLAR)
  }

  function Singles(re: seq<Byte>): (items: seq<Item>)
    ensures |items| == |re| && forall i | 0 <= i < |re| :: items[i] == One(re[i])
  {
    seq(|re|, i requires 0 <= i < |re| => One(re[i]))
  }

  lemma {:induction false} SinglesSpelled(re: seq<Byte>)
    ensures SpellItems(Singles(re)) == re
  {
    if re != [] {
      assert Singles(re)[1..] == Singles(re[1..]);
      SinglesSpelled(re[1..]);
    }
  }

  lemma {:induction false} SinglesAre(re: seq<Byte>, s: seq<Byte>)
    requires forall i | 0 <= i < |re| :: re[i] != DOT
    ensures InLanguage(Singles(re), s) <==> s == re
    decreases |re|
  {
    if re != [] {
      assert Singles(re)[1..] == Singles(re[1..]);
      if s != [] {
        SinglesAre(re[1..], s[1..]);
        assert s == [s[0]] + s[1..] && re == [re[0]] + re[1..];
      }
    }
  }

  /** A plain word is found exactly where a substring search finds it. */
  lemma PlainIsSubstring(re: CString, text: seq<Byte>)
    requires Plain(re)
    ensures Matches(re, text) <==> exists at :: OccursAt(text, re, at)
  {
    hide InLanguage, SpellItems, Denotes;
    var r := EveryPattern(re);
    var plain := Regex(false, Singles(re), false);
    SinglesSpelled(re);
    assert SpellRest(Singles(re), false) == re + [] == re && Spell(plain) == [] + re == re;
    PlainDenotes(re, text);
  }

  lemma PlainDenotes(re: seq<Byte>, text: seq<Byte>)
    requires forall i | 0 <= i < |re| :: re[i] != DOT
    ensures Denotes(Regex(false, Singles(re), false), text) <==> exists at :: OccursAt(text, re, at)
  {
    hide InLanguage, Singles;
    var r := Regex(false, Singles(re), false);
    if Denotes(r, text) {
      var i, j :| Within(r, text, i, j) && InLanguage(r.items, text[i..j]);
      SinglesAre(re, text[i..j]);
      forall k | 0 <= k < |re| ensures re[k] == text[i + k] {
        assert text[i..j][k] == re[k];
      }
      assert OccursAt(text, re, i);
    }
    if at :| OccursAt(text, re, at) {
      assert text[at..at + |re|] == re;
      SinglesAre(re, text[at..at + |re|]);
      assert Within(r, text, at, at + |re|) && Denotes(r, text);
    }
  }
}
