/** user/grep.c: the backtracking matcher, against what a pattern means, and the
    driver that feeds it lines from a fixed buffer. */
module Grep {

  // -------------------------------------------------------- what a pattern means

  /** One character, or any number of copies of one; '.' stands for any. */
  datatype Item = One(c: char) | Star(c: char)

  /** A pattern is a list of items, possibly anchored at the end of the text. */
  datatype Pattern = Pattern(items: seq<Item>, atEnd: bool)

  function Parse(re: string): Pattern {
    if re == "" then Pattern([], false)
    else if |re| >= 2 && re[1] == '*' then var p := Parse(re[2..]); p.(items := [Star(re[0])] + p.items)
    else if re == "$" then Pattern([], true)
    else var p := Parse(re[1..]); p.(items := [One(re[0])] + p.items)
  }

  predicate Accepts(c: char, x: char) { c == '.' || c == x }

  ghost predicate ItemMatches(it: Item, s: string) {
    match it
    case One(c) => |s| == 1 && Accepts(c, s[0])
    case Star(c) => forall k :: 0 <= k < |s| ==> Accepts(c, s[k])
  }

  /** cuts divides a prefix of the text (all of it under $) into one piece per item. */
  ghost predicate CutsMatch(p: Pattern, text: string, cuts: seq<nat>) {
    && |cuts| == |p.items| + 1 && cuts[0] == 0 && cuts[|p.items|] <= |text|
    && (forall i, j :: 0 <= i <= j < |cuts| ==> cuts[i] <= cuts[j])
    && (forall i :: 0 <= i < |p.items| ==> ItemMatches(p.items[i], text[cuts[i]..cuts[i + 1]]))
    && (p.atEnd ==> cuts[|p.items|] == |text|)
  }

  /** Some prefix of the text is in the language of the pattern. */
  ghost predicate Begins(p: Pattern, text: string) {
    exists cuts :: CutsMatch(p, text, cuts)
  }

  /** The text contains a match: at its start under a leading ^, anywhere otherwise. */
  ghost predicate Contains(re: string, text: string) {
    if re != "" && re[0] == '^' then Begins(Parse(re[1..]), text)
    else exists k: nat :: k <= |text| && Begins(Parse(re), text[k..])
  }

  // ------------------------------------------------------------ one item at a time

  lemma BeginsNone(atEnd: bool, text: string)
    ensures Begins(Pattern([], atEnd), text) <==> (atEnd ==> text == "")
  {
    if atEnd ==> text == "" {
      assert CutsMatch(Pattern([], atEnd), text, [0]);
    }
  }

  lemma SliceOfDrop(text: string, k: nat, a: nat, b: nat)
    requires k <= a <= b <= |text|
    ensures text[k..][a - k..b - k] == text[a..b]
  {
  }

  /** Where the later items of a match lie, seen from the end of the first. */
  lemma TailCuts(p: Pattern, text: string, cuts: seq<nat>)
    requires p.items != [] && CutsMatch(p, text, cuts)
    ensures cuts[1] <= |text| && ItemMatches(p.items[0], text[..cuts[1]])
    ensures CutsMatch(Pattern(p.items[1..], p.atEnd), text[cuts[1]..],
                      seq(|cuts| - 1, i requires 0 <= i < |cuts| - 1 => cuts[i + 1] - cuts[1]))
  {
    var k := cuts[1];
    var tail := seq(|cuts| - 1, i requires 0 <= i < |cuts| - 1 => cuts[i + 1] - k);
    assert text[cuts[0]..cuts[1]] == text[..k];
    forall i | 0 <= i < |p.items| - 1
      ensures ItemMatches(p.items[1..][i], text[k..][tail[i]..tail[i + 1]])
    {
      assert ItemMatches(p.items[i + 1], text[cuts[i + 1]..cuts[i + 2]]);
      SliceOfDrop(text, k, cuts[i + 1], cuts[i + 2]);
    }
  }

  lemma ConsCuts(it: Item, p: Pattern, text: string, k: nat, tail: seq<nat>)
    requires k <= |text| && ItemMatches(it, text[..k]) && CutsMatch(p, text[k..], tail)
    ensures CutsMatch(p.(items := [it] + p.items), text, [0] + seq(|tail|, i requires 0 <= i < |tail| => tail[i] + k))
  {
    hide ItemMatches;
    var p', cuts := p.(items := [it] + p.items), [0] + seq(|tail|, i requires 0 <= i < |tail| => tail[i] + k);
    var n := |p'.items|;
    assert |cuts| == n + 1 && cuts[0] == 0 && cuts[n] == tail[n - 1] + k;
    forall i, j | 0 <= i <= j < |cuts|
      ensures cuts[i] <= cuts[j]
    {
      assert i > 0 ==> tail[i - 1] <= tail[j - 1];
    }
    forall i | 0 <= i < n
      ensures ItemMatches(p'.items[i], text[cuts[i]..cuts[i + 1]])
    {
      if i == 0 {
        assert text[cuts[0]..cuts[1]] == text[..k];
      } else {
        assert p'.items[i] == p.items[i - 1] && cuts[i] == tail[i - 1] + k && cuts[i + 1] == tail[i] + k;
        assert ItemMatches(p.items[i - 1], text[k..][tail[i - 1]..tail[i]]);
        SliceOfDrop(text, k, cuts[i], cuts[i + 1]);
      }
    }
  }

  /** A match is a match of the first item followed by a match of the rest. */
  lemma BeginsCons(it: Item, p: Pattern, text: string)
    ensures Begins(p.(items := [it] + p.items), text) <==>
              exists k: nat :: k <= |text| && ItemMatches(it, text[..k]) && Begins(p, text[k..])
  {
    var p' := p.(items := [it] + p.items);
    if Begins(p', text) {
      var cuts :| CutsMatch(p', text, cuts);
      TailCuts(p', text, cuts);
      assert p'.items[1..] == p.items;
      assert Begins(p, text[cuts[1]..]);
    }
    if k: nat :| k <= |text| && ItemMatches(it, text[..k]) && Begins(p, text[k..]) {
      var tail :| CutsMatch(p, text[k..], tail);
      ConsCuts(it, p, text, k, tail);
    }
  }

  lemma BeginsOne(c: char, p: Pattern, text: string)
    ensures Begins(p.(items := [One(c)] + p.items), text) <==> text != "" && Accepts(c, text[0]) && Begins(p, text[1..])
  {
    BeginsCons(One(c), p, text);
    if text != "" && Accepts(c, text[0]) && Begins(p, text[1..]) {
      assert ItemMatches(One(c), text[..1]);
    }
  }

  // ----------------------------------------------------------------- the matcher

  /** matchhere: search for re at the beginning of text. */
  method MatchHere(re: string, text: string) returns (b: bool)
    ensures b <==> Begins(Parse(re), text)
    decreases |re|, 0
  {
    hide Begins;
    if re == "" {
      BeginsNone(false, text);
      return true;
    }
    if |re| >= 2 && re[1] == '*' {
      b := MatchStar(re[0], re[2..], text);
      BeginsCons(Star(re[0]), Parse(re[2..]), text);
      return;
    }
    if re[0] == '$' && |re| == 1 {
      BeginsNone(true, text);
      return text == "";
    }
    BeginsOne(re[0], Parse(re[1..]), text);
    if text != "" && (re[0] == '.' || re[0] == text[0]) {
      b := MatchHere(re[1..], text[1..]);
      return;
    }
    return false;
  }

  /** matchstar: search for c*re at the beginning of text. */
  method MatchStar(c: char, re: string, text: string) returns (b: bool)
    ensures b <==> exists k: nat :: k <= |text| && ItemMatches(Star(c), text[..k]) && Begins(Parse(re), text[k..])
    decreases |re|, 1
  {
    hide Begins;
    var k: nat := 0;
    while true
      invariant k <= |text| && ItemMatches(Star(c), text[..k])
      invariant forall j: nat :: j < k ==> !Begins(Parse(re), text[j..])
      decreases |text| - k
    {
      b := MatchHere(re, text[k..]);
      if b {
        return true;
      }
      if k == |text| || !(text[k] == c || c == '.') {
        StarStops(c, text, k);
        return false;
      }
      k := k + 1;
    }
  }

  /** A star cannot reach past a character it does not accept. */
  lemma StarStops(c: char, text: string, k: nat)
    requires k <= |text| && (k == |text| || !Accepts(c, text[k]))
    ensures forall j: nat :: k < j <= |text| ==> !ItemMatches(Star(c), text[..j])
  {
    forall j: nat | k < j <= |text|
      ensures !ItemMatches(Star(c), text[..j])
    {
      assert text[..j][k] == text[k];
    }
  }

  /** match: search for re anywhere in text. */
  method Match(re: string, text: string) returns (b: bool)
    ensures b <==> Contains(re, text)
  {
    hide Begins;
    if re != "" && re[0] == '^' {
      b := MatchHere(re[1..], text);
      return;
    }
    var k: nat := 0;
    while true
      invariant k <= |text| && forall j: nat :: j < k ==> !Begins(Parse(re), text[j..])
      decreases |text| - k
    {
      b := MatchHere(re, text[k..]);
      if b {
        return true;
      }
      if k == |text| {
        return false;
      }
      k := k + 1;
    }
  }

  // ------------------------------------------------------------------ the driver

  const BUFSIZE: nat := 1024

  /** The first newline or NUL, if there is one. */
  function Stop(s: string): (i: nat)
    ensures i <= |s| && (i < |s| ==> s[i] == '\n' || s[i] == '\0')
    ensures forall j :: 0 <= j < i ==> s[j] != '\n' && s[j] != '\0'
  {
    if s == "" || s[0] == '\n' || s[0] == '\0' then 0 else 1 + Stop(s[1..])
  }

  /** A line that grep gets to see: terminated, free of NUL, and within the buffer. */
  predicate HasLine(s: string) {
    Stop(s) < |s| && s[Stop(s)] == '\n' && Stop(s) + 1 < BUFSIZE
  }

  /** What grep prints: the matching lines, up to the first that it cannot see. */
  ghost function Printed(re: string, s: string): string {
    if !HasLine(s) then ""
    else var i := Stop(s);
         (if Contains(re, s[..i]) then s[..i + 1] else "") + Printed(re, s[i + 1..])
  }

  /** Every line that grep should print. */
  ghost function Wanted(re: string, s: string): string {
    var i := Newline(s);
    if i == |s| then ""
    else (if Contains(re, s[..i]) then s[..i + 1] else "") + Wanted(re, s[i + 1..])
  }

  function Newline(s: string): (i: nat)
    ensures i <= |s| && (i < |s| ==> s[i] == '\n')
    ensures forall j :: 0 <= j < i ==> s[j] != '\n'
  {
    if s == "" || s[0] == '\n' then 0 else 1 + Newline(s[1..])
  }

  /** The input from the first line on that grep cannot see: one that is too long for
      the buffer, holds a NUL, or has no newline. */
  function Unseen(s: string): string {
    if HasLine(s) then Unseen(s[Stop(s) + 1..]) else s
  }

  /** The first line, if the pattern is in it. */
  ghost function First(re: string, s: string): string
    requires HasLine(s)
  {
    if Contains(re, s[..Stop(s)]) then s[..Stop(s) + 1] else ""
  }

  lemma SameStop(s: string)
    requires HasLine(s)
    ensures Newline(s) == Stop(s)
  {
  }

  lemma LineByLine(re: string, s: string)
    ensures HasLine(s) ==> Stop(s) < |s| && Unseen(s) == Unseen(s[Stop(s) + 1..])
    ensures HasLine(s) ==> Printed(re, s) == First(re, s) + Printed(re, s[Stop(s) + 1..])
    ensures HasLine(s) ==> Wanted(re, s) == First(re, s) + Wanted(re, s[Stop(s) + 1..])
    ensures !HasLine(s) ==> Unseen(s) == s && Printed(re, s) == ""
  {
    hide Contains;
    if HasLine(s) {
      SameStop(s);
    }
    hide Stop, Newline;
  }

  /** What should be printed is what is printed and the matching lines of the rest. */
  lemma {:induction false} WantedSplit(re: string, s: string)
    ensures Wanted(re, s) == Printed(re, s) + Wanted(re, Unseen(s))
    decreases |s|
  {
    hide Contains, Wanted, Printed, Unseen, Stop, HasLine, First;
    LineByLine(re, s);
    if HasLine(s) {
      var t := s[Stop(s) + 1..];
      WantedSplit(re, t);
      Associative(First(re, s), Printed(re, t), Wanted(re, Unseen(t)));
    }
  }

  lemma Associative(a: string, b: string, c: string)
    ensures a + (b + c) == (a + b) + c
  {
  }

  lemma EmptyPatternMatches(text: string)
    ensures Contains("", text)
  {
    BeginsNone(false, text);
    hide Begins;
    assert text[0..] == text;
  }

  /** Bytes i .. j of s are a line and its newline. */
  predicate IsLine(s: string, i: nat, j: nat) {
    i <= j < |s| && s[j] == '\n' && (i == 0 || s[i - 1] == '\n') && forall k :: i <= k < j ==> s[k] != '\n'
  }

  /** Every line with its newline fits in the buffer, and none holds a NUL. */
  ghost predicate LinesFit(s: string) {
    forall i: nat, j: nat :: IsLine(s, i, j) ==> j - i + 1 < BUFSIZE && forall k :: i <= k < j ==> s[k] != '\0'
  }

  /** The lines after the first are those of the rest. */
  lemma LineOfRest(s: string, n: nat, i: nat, j: nat)
    requires n < |s| && s[n] == '\n' && forall k :: 0 <= k < n ==> s[k] != '\n'
    ensures IsLine(s[n + 1..], i, j) <==> IsLine(s, i + n + 1, j + n + 1)
    ensures IsLine(s, i, j) ==> (i == 0 && j == n) || i >= n + 1
  {
    var t := s[n + 1..];
    assert forall k: nat :: k < |t| ==> t[k] == s[k + n + 1];
    if IsLine(s, i + n + 1, j + n + 1) {
      forall k | i <= k < j
        ensures t[k] != '\n'
      {
        assert s[k + n + 1] != '\n';
      }
    }
  }

  lemma RestFits(s: string, n: nat)
    requires n < |s| && s[n] == '\n' && (forall k :: 0 <= k < n ==> s[k] != '\n') && LinesFit(s)
    ensures LinesFit(s[n + 1..])
  {
    var t := s[n + 1..];
    forall i: nat, j: nat | IsLine(t, i, j)
      ensures j - i + 1 < BUFSIZE && forall k :: i <= k < j ==> t[k] != '\0'
    {
      LineOfRest(s, n, i, j);
      assert forall k :: i <= k < j ==> t[k] == s[k + n + 1];
    }
  }

  lemma WholeFits(s: string, n: nat)
    requires n < |s| && s[n] == '\n' && n + 1 < BUFSIZE && LinesFit(s[n + 1..])
    requires forall k :: 0 <= k < n ==> s[k] != '\n' && s[k] != '\0'
    ensures LinesFit(s)
  {
    var t := s[n + 1..];
    forall i: nat, j: nat | IsLine(s, i, j)
      ensures j - i + 1 < BUFSIZE && forall k :: i <= k < j ==> s[k] != '\0'
    {
      LineOfRest(s, n, i, j);
      if i > n {
        LineOfRest(s, n, i - n - 1, j - n - 1);
        assert forall k :: i <= k < j ==> s[k] == t[k - n - 1];
      }
    }
  }

  /** From where grep stops there is a complete line exactly when some line does not
      fit or holds a NUL. */
  lemma {:induction false} StopsAtBadLine(s: string)
    ensures Newline(Unseen(s)) == |Unseen(s)| <==> LinesFit(s)
    decreases |s|
  {
    if HasLine(s) {
      StopsAtBadLine(s[Stop(s) + 1..]);
      if LinesFit(s) {
        RestFits(s, Stop(s));
      }
      if LinesFit(s[Stop(s) + 1..]) {
        WholeFits(s, Stop(s));
      }
    } else if Newline(s) < |s| {
      assert IsLine(s, 0, Newline(s));
      assert Stop(s) <= Newline(s) && (Stop(s) < Newline(s) ==> s[Stop(s)] == '\0');
    }
  }

  /** grep prints every matching line, for every pattern, exactly when every line
      fits in the buffer and none holds a NUL. */
  lemma AllPrinted(s: string)
    ensures (forall re :: Printed(re, s) == Wanted(re, s)) <==> LinesFit(s)
  {
    hide Contains, LinesFit;
    StopsAtBadLine(s);
    var u := Unseen(s);
    if Newline(u) == |u| {
      forall re
        ensures Printed(re, s) == Wanted(re, s)
      {
        WantedSplit(re, s);
        assert Wanted(re, u) == "";
      }
    } else {
      WantedSplit("", s);
      EmptyPatternMatches(u[..Newline(u)]);
      assert |Wanted("", u)| > 0;
    }
  }

  /** A complete line that does not fit ends the output, although it should be printed. */
  lemma OverlongLine(re: string, s: string)
    requires BUFSIZE <= Newline(s) + 1 && Newline(s) < |s|
    ensures Printed(re, s) == "" && Wanted("", s) != ""
  {
    assert Stop(s) < |s| && s[Stop(s)] == '\n' ==> Newline(s) <= Stop(s);
    EmptyPatternMatches(s[..Newline(s)]);
    hide Contains;
    assert |Wanted("", s)| > 0;
  }

  /** So does a NUL before the newline. */
  lemma LineWithNul(re: string, s: string, k: nat)
    requires k < Newline(s) < |s| && s[k] == '\0'
    ensures Printed(re, s) == "" && Wanted("", s) != ""
  {
    assert Stop(s) <= k;
    EmptyPatternMatches(s[..Newline(s)]);
    hide Contains;
    assert |Wanted("", s)| > 0;
  }

  lemma StopOfPrefix(a: string, b: string)
    ensures Stop(a) < |a| ==> Stop(a + b) == Stop(a)
    ensures Stop(a) == |a| ==> Stop(a + b) >= |a|
  {
    if Stop(a) < |a| {
      assert (a + b)[Stop(a)] == a[Stop(a)];
    }
  }

  /** strchr(p, '\n') on the NUL-terminated buffer; m if there is none. */
  method FindNewline(buf: array<char>, p: nat, m: nat) returns (q: nat)
    requires p <= m < buf.Length && buf[m] == '\0'
    ensures p <= q <= m
    ensures q < m ==> q == p + Stop(buf[p..m]) && buf[q] == '\n'
    ensures q == m ==> Stop(buf[p..m]) == m - p || buf[p + Stop(buf[p..m])] == '\0'
  {
    q := p;
    while buf[q] != '\0'
      invariant p <= q <= m && forall j :: p <= j < q ==> buf[j] != '\n' && buf[j] != '\0'
      decreases m - q
    {
      if buf[q] == '\n' {
        assert buf[p..m][q - p] == '\n';
        return q;
      }
      q := q + 1;
    }
    if q < m {
      assert buf[p..m][q - p] == '\0';
    }
    return m;
  }

  /** read's copy into the buffer, and the memmove to its front. */
  method CopyIn(buf: array<char>, at: nat, piece: string)
    requires at + |piece| <= buf.Length
    modifies buf
    ensures buf[..] == old(buf[..at]) + piece + old(buf[at + |piece|..])
  {
    var i := 0;
    while i < |piece|
      invariant 0 <= i <= |piece|
      invariant forall k :: 0 <= k < i ==> buf[at + k] == piece[k]
      invariant forall k :: 0 <= k < buf.Length && !(at <= k < at + i) ==> buf[k] == old(buf[k])
    {
      buf[at + i] := piece[i];
      i := i + 1;
    }
  }

  /** How many bytes read returns: none at the end or with no room, otherwise
      anything from one byte to all that fits. */
  function ReadCount(wish: nat, room: nat, left: nat): (n: nat)
    ensures n <= room && n <= left && (n == 0 <==> room == 0 || left == 0)
  {
    var most := if room < left then room else left;
    if wish < 1 && most > 0 then 1 else if wish < most then wish else most
  }

  /** No line in sight in s: no newline before the first NUL. */
  predicate Stuck(s: string) { Stop(s) == |s| || s[Stop(s)] == '\0' }

  /** grep: whatever sizes the reads return, it prints the same. */
  method Run(re: string, input: string, wish: nat -> nat, buf: array<char>) returns (out: string)
    requires buf.Length == BUFSIZE
    modifies buf
    ensures out == Printed(re, input)
  {
    hide Printed, Stuck, ReadCount;
    var rest, m: nat, r: nat := input, 0, 0;
    out := "";
    var n := ReadCount(wish(r), BUFSIZE - m - 1, |rest|);
    assert buf[..0] + rest == input && buf[..0] == "";
    EmptyIsStuck();
    while n > 0
      invariant m + 1 <= BUFSIZE && n == ReadCount(wish(r), BUFSIZE - m - 1, |rest|)
      invariant out + Printed(re, buf[..m] + rest) == Printed(re, input)
      invariant Stuck(buf[..m])
      decreases |rest|
    {
      var printed, left := Round(re, buf, m, rest, n);
      assert out + (printed + Printed(re, buf[..left] + rest[n..]))
             == (out + printed) + Printed(re, buf[..left] + rest[n..]);
      out, m, rest := out + printed, left, rest[n..];
      r := r + 1;
      n := ReadCount(wish(r), BUFSIZE - m - 1, |rest|);
    }
    NoMore(re, buf[..m], rest);
    assert out + "" == out;
  }

  lemma EmptyIsStuck()
    ensures Stuck("")
  {
  }

  /** One round of the outer loop, after a read of n bytes. */
  method Round(re: string, buf: array<char>, m0: nat, rest: string, n: nat) returns (out: string, m: nat)
    requires buf.Length == BUFSIZE && m0 + n < BUFSIZE && n <= |rest|
    modifies buf
    ensures m < BUFSIZE && Stuck(buf[..m])
    ensures out + Printed(re, buf[..m] + rest[n..]) == Printed(re, old(buf[..m0]) + rest)
  {
    hide Printed, Stuck;
    CopyIn(buf, m0, rest[..n]);
    m := m0 + n;
    assert buf[..m] == old(buf[..m0]) + rest[..n];
    buf[m] := '\0';
    assert buf[0..m] + rest[n..] == old(buf[..m0]) + rest;
    var p;
    out, p := Scan(re, buf, m, rest[n..]);
    m := Shift(buf, p, m);
  }

  /** The inner loop: print the matching lines of the buffer from its start. */
  method Scan(re: string, buf: array<char>, m: nat, ghost rest: string) returns (out: string, p: nat)
    requires buf.Length == BUFSIZE && m < BUFSIZE && buf[m] == '\0'
    modifies buf
    ensures p <= m && Stuck(buf[p..m])
    ensures out + Printed(re, buf[p..m] + rest) == Printed(re, old(buf[0..m]) + rest)
  {
    hide Printed, Stop;
    p, out := 0, "";
    var q := FindNewline(buf, p, m);
    assert out + Printed(re, buf[0..m] + rest) == Printed(re, buf[0..m] + rest);
    while q < m
      invariant p <= q <= m && buf[m] == '\0'
      invariant q < m ==> q == p + Stop(buf[p..m]) && buf[q] == '\n'
      invariant q == m ==> Stuck(buf[p..m])
      invariant out + Printed(re, buf[p..m] + rest) == Printed(re, old(buf[0..m]) + rest)
      decreases m - p
    {
      var printed := OneLine(re, buf, p, q, m, rest);
      assert out + (printed + Printed(re, buf[q + 1..m] + rest)) == (out + printed) + Printed(re, buf[q + 1..m] + rest);
      out, p := out + printed, q + 1;
      q := FindNewline(buf, p, m);
    }
  }

  /** The inner loop's body: cut the line at q, match it, print it. */
  method OneLine(re: string, buf: array<char>, p: nat, q: nat, m: nat, ghost rest: string) returns (out: string)
    requires buf.Length == BUFSIZE && p <= q < m < BUFSIZE && buf[m] == '\0' && q == p + Stop(buf[p..m])
    requires buf[q] == '\n'
    modifies buf
    ensures buf[m] == '\0'
    ensures out + Printed(re, buf[q + 1..m] + rest) == Printed(re, old(buf[p..m]) + rest)
  {
    hide Printed, Stop, Contains;
    ghost var before := buf[p..m];
    NextLine(re, before, rest);
    buf[q] := '\0';
    assert buf[p..q] == before[..q - p];
    var found := Match(re, buf[p..q]);
    out := "";
    if found {
      buf[q] := '\n';
      assert buf[p..q + 1] == before[..q - p + 1];
      out := buf[p..q + 1];
    }
    assert buf[q + 1..m] == before[q - p + 1..];
  }

  lemma NextLine(re: string, s: string, rest: string)
    requires Stop(s) < |s| < BUFSIZE && s[Stop(s)] == '\n'
    ensures var i := Stop(s);
            Printed(re, s + rest) == (if Contains(re, s[..i]) then s[..i + 1] else "") + Printed(re, s[i + 1..] + rest)
  {
    hide Contains;
    var i := Stop(s);
    StopOfPrefix(s, rest);
    assert (s + rest)[..i] == s[..i] && (s + rest)[..i + 1] == s[..i + 1] && (s + rest)[i + 1..] == s[i + 1..] + rest;
  }

  lemma NoMore(re: string, s: string, rest: string)
    requires Stuck(s) && |s| < BUFSIZE && (rest == "" || |s| + 1 == BUFSIZE)
    ensures Printed(re, s + rest) == ""
  {
    StopOfPrefix(s, rest);
    if rest == "" {
      assert s + rest == s;
    }
  }

  /** Move the unfinished line to the front of the buffer. */
  method Shift(buf: array<char>, p: nat, m: nat) returns (left: nat)
    requires p <= m < buf.Length
    modifies buf
    ensures left == m - p && buf[..left] == old(buf[p..m])
  {
    left := m - p;
    var i := 0;
    while i < left
      invariant 0 <= i <= left
      invariant forall k :: 0 <= k < i ==> buf[k] == old(buf[p + k])
      invariant forall k :: p + i <= k < buf.Length ==> buf[k] == old(buf[k])
    {
      buf[i] := buf[p + i];
      i := i + 1;
    }
  }
}
