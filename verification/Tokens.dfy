// lib/string.c: strspn, strpbrk and strtok, the tokenizer that cuts a string in place and remembers where it was.

module Tokens {
  import opened Machine

  // ---- Strings in memory ----

  /** e is the terminator of the string at p. */
  predicate EndsAt(mem: seq<char>, p: nat, e: nat) {
    p <= e < |mem| && mem[e] == '\0' && forall k :: p <= k < e ==> mem[k] != '\0'
  }

  ghost predicate IsString(mem: seq<char>, p: nat) {
    exists e :: EndsAt(mem, p, e)
  }

  /** mem[q] stops a scan for characters outside ct, or inside it; the terminator stops both. */
  predicate Stops(c: char, ct: seq<char>, inside: bool) {
    c == '\0' || (c in ct) == inside
  }

  /** The first place at or after p that stops the scan. */
  ghost function Scan(mem: seq<char>, p: nat, ct: seq<char>, inside: bool): (q: nat)
    requires IsString(mem, p)
    ensures p <= q < |mem| && Stops(mem[q], ct, inside) && IsString(mem, q)
    ensures forall k :: p <= k < q ==> !Stops(mem[k], ct, inside)
    ensures forall e :: EndsAt(mem, p, e) ==> EndsAt(mem, q, e)
    decreases |mem| - p
  {
    var e :| EndsAt(mem, p, e);
    if Stops(mem[p], ct, inside) then p
    else
      assert EndsAt(mem, p + 1, e);
      Scan(mem, p + 1, ct, inside)
  }

  lemma ScanIs(mem: seq<char>, p: nat, ct: seq<char>, inside: bool, q: nat)
    requires IsString(mem, p) && p <= q < |mem| && Stops(mem[q], ct, inside)
    requires forall k :: p <= k < q ==> !Stops(mem[k], ct, inside)
    ensures q == Scan(mem, p, ct, inside)
  {
  }

  // ---- Tokens: the runs of characters outside ct ----

  /** Start and end of each token of the string at p, from left to right. */
  ghost function Spans(mem: seq<char>, p: nat, ct: seq<char>): (s: seq<(nat, nat)>)
    requires IsString(mem, p)
    ensures forall k :: 0 <= k < |s| ==> p <= s[k].0 < s[k].1 < |mem|
    decreases |mem| - p
  {
    var a := Scan(mem, p, ct, false);
    if mem[a] == '\0' then []
    else
      var b := Scan(mem, a, ct, true);
      [(a, b)] + if mem[b] == '\0' then [] else
        StringAfter(mem, b);
        Spans(mem, b + 1, ct)
  }

  lemma StringAfter(mem: seq<char>, b: nat)
    requires IsString(mem, b) && mem[b] != '\0'
    ensures IsString(mem, b + 1)
  {
    var e :| EndsAt(mem, b, e);
    assert EndsAt(mem, b + 1, e);
  }

  /** [a, b) is a maximal run of characters outside ct in the string from p to e. */
  ghost predicate MaximalRun(mem: seq<char>, p: nat, e: nat, ct: seq<char>, a: nat, b: nat)
    requires EndsAt(mem, p, e)
  {
    && p <= a < b <= e
    && (forall k :: a <= k < b ==> mem[k] !in ct)
    && (a == p || mem[a - 1] in ct)
    && (b == e || mem[b] in ct)
  }

  ghost predicate AreTheRuns(mem: seq<char>, p: nat, e: nat, ct: seq<char>, s: seq<(nat, nat)>)
    requires EndsAt(mem, p, e)
  {
    && Ascending(s)
    && forall a: nat, b: nat :: (a, b) in s <==> MaximalRun(mem, p, e, ct, a, b)
  }

  ghost predicate Ascending(s: seq<(nat, nat)>) {
    forall i, j :: 0 <= i < j < |s| ==> s[i].1 < s[j].0
  }

  /** The first run is the one the two scans delimit; the others are those of the string after it. */
  lemma RunsStep(mem: seq<char>, p: nat, e: nat, ct: seq<char>, a: nat, b: nat, x: nat, y: nat)
    requires EndsAt(mem, p, e) && '\0' !in ct
    requires a == Scan(mem, p, ct, false) && mem[a] != '\0' && b == Scan(mem, a, ct, true)
    ensures MaximalRun(mem, p, e, ct, a, b)
    ensures EndsAt(mem, b, e) && (mem[b] == '\0' <==> b == e)
    ensures b == e ==> (MaximalRun(mem, p, e, ct, x, y) <==> (x, y) == (a, b))
    ensures b < e ==> EndsAt(mem, b + 1, e)
    ensures b < e ==> (MaximalRun(mem, p, e, ct, x, y) <==> (x, y) == (a, b) || MaximalRun(mem, b + 1, e, ct, x, y))
  {
    if MaximalRun(mem, p, e, ct, x, y) && x <= b {
      RunIsFirst(mem, p, e, ct, a, b, x, y);
    }
  }

  lemma RunIsFirst(mem: seq<char>, p: nat, e: nat, ct: seq<char>, a: nat, b: nat, x: nat, y: nat)
    requires EndsAt(mem, p, e) && '\0' !in ct
    requires a == Scan(mem, p, ct, false) && mem[a] != '\0' && b == Scan(mem, a, ct, true)
    requires MaximalRun(mem, p, e, ct, x, y) && x <= b
    ensures (x, y) == (a, b)
  {
    assert EndsAt(mem, b, e);
    assert mem[x] !in ct && mem[x] != '\0' && a <= x < b;
    assert x == p || mem[x - 1] in ct;
    assert x == a;
    assert y == e || mem[y] in ct;
    assert y >= b;
    assert b == e || mem[b] in ct;
  }

  lemma NoRunsAtAll(mem: seq<char>, p: nat, e: nat, ct: seq<char>)
    requires EndsAt(mem, p, e) && mem[Scan(mem, p, ct, false)] == '\0'
    ensures AreTheRuns(mem, p, e, ct, [])
  {
    forall x: nat, y: nat ensures !MaximalRun(mem, p, e, ct, x, y) {
      NoRun(mem, p, e, ct, x, y);
    }
  }

  lemma NoRun(mem: seq<char>, p: nat, e: nat, ct: seq<char>, x: nat, y: nat)
    requires EndsAt(mem, p, e) && mem[Scan(mem, p, ct, false)] == '\0'
    ensures !MaximalRun(mem, p, e, ct, x, y)
  {
    assert forall k :: p <= k < e ==> mem[k] in ct;
    var c := if p <= x < e then mem[x] else ' ';
  }

  /** The tokens are exactly the maximal runs, in order. */
  lemma {:induction false} SpansAreTheRuns(mem: seq<char>, p: nat, e: nat, ct: seq<char>)
    requires EndsAt(mem, p, e) && '\0' !in ct
    ensures AreTheRuns(mem, p, e, ct, Spans(mem, p, ct))
    decreases |mem| - p
  {
    hide MaximalRun, AreTheRuns;
    var a := Scan(mem, p, ct, false);
    if mem[a] == '\0' {
      NoRunsAtAll(mem, p, e, ct);
    } else {
      var b := Scan(mem, a, ct, true);
      assert EndsAt(mem, b, e);
      if b < e {
        assert EndsAt(mem, b + 1, e);
        SpansAreTheRuns(mem, b + 1, e, ct);
      }
      AddFirst(mem, p, e, ct, a, b, Spans(mem, p, ct));
    }
  }

  lemma AddFirst(mem: seq<char>, p: nat, e: nat, ct: seq<char>, a: nat, b: nat, s: seq<(nat, nat)>)
    requires EndsAt(mem, p, e) && '\0' !in ct
    requires a == Scan(mem, p, ct, false) && mem[a] != '\0' && b == Scan(mem, a, ct, true) && b <= e
    requires |s| > 0 && s[0] == (a, b)
    requires b == e ==> |s| == 1
    requires b < e ==> EndsAt(mem, b + 1, e) && AreTheRuns(mem, b + 1, e, ct, s[1..])
    ensures AreTheRuns(mem, p, e, ct, s)
  {
    hide Scan, MaximalRun;
    if b < e {
      StartsAfter(mem, b + 1, e, ct, s[1..]);
    }
    forall i, j | 0 <= i < j < |s| ensures s[i].1 < s[j].0 {
      assert s[1..][j - 1] == s[j];
      if i > 0 {
        assert s[1..][i - 1] == s[i] && s[1..][j - 1] == s[j];
      }
    }
    forall x: nat, y: nat ensures (x, y) in s <==> MaximalRun(mem, p, e, ct, x, y) {
      RunsStep(mem, p, e, ct, a, b, x, y);
      assert (x, y) in s <==> (x, y) == (a, b) || (x, y) in s[1..];
    }
  }

  lemma StartsAfter(mem: seq<char>, p: nat, e: nat, ct: seq<char>, s: seq<(nat, nat)>)
    requires EndsAt(mem, p, e)
    requires AreTheRuns(mem, p, e, ct, s)
    ensures forall i :: 0 <= i < |s| ==> p <= s[i].0 < s[i].1
  {
    forall i | 0 <= i < |s| ensures p <= s[i].0 < s[i].1 {
      assert (s[i].0, s[i].1) in s;
    }
  }

  // ---- strspn, strpbrk ----

  /** strspn(buf + p, ct): the length of the leading part made of characters in ct. */
  method Strspn(buf: array<char>, p: nat, ct: seq<char>) returns (count: nat)
    requires IsString(buf[..], p) && '\0' !in ct
    ensures p + count == Scan(buf[..], p, ct, false)
  {
    ghost var e: nat :| EndsAt(buf[..], p, e);
    count := 0;
    while buf[p + count] != '\0'
      invariant p + count <= e
      invariant forall k :: p <= k < p + count ==> !Stops(buf[k], ct, false)
      decreases e - count
    {
      var a := 0;
      while a < |ct| && ct[a] != buf[p + count]
        invariant a <= |ct| && buf[p + count] !in ct[..a]
      {
        a := a + 1;
      }
      if a == |ct| {
        break;
      }
      count := count + 1;
    }
    ScanIs(buf[..], p, ct, false, p + count);
  }

  /** strpbrk(buf + p, ct): the first character in ct, or nothing. */
  method Strpbrk(buf: array<char>, p: nat, ct: seq<char>) returns (r: Option<nat>)
    requires IsString(buf[..], p) && '\0' !in ct
    ensures var q := Scan(buf[..], p, ct, true);
      r == if buf[q] == '\0' then None else Some(q)
  {
    ghost var e: nat :| EndsAt(buf[..], p, e);
    var q := p;
    while buf[q] != '\0'
      invariant p <= q <= e
      invariant forall k :: p <= k < q ==> !Stops(buf[k], ct, true)
      decreases e - q
    {
      for a := 0 to |ct|
        invariant buf[q] !in ct[..a]
      {
        if buf[q] == ct[a] {
          ScanIs(buf[..], p, ct, true, q);
          return Some(q);
        }
      }
      q := q + 1;
    }
    ScanIs(buf[..], p, ct, true, q);
    return None;
  }

  // ---- strtok ----

  datatype Call = Call(mem: seq<char>, saved: Option<nat>, token: Option<nat>)

  ghost predicate Readable(mem: seq<char>, start: Option<nat>) {
    start.Some? ==> IsString(mem, start.value)
  }

  /** One call: the next token is closed by a terminator, and the scan continues behind it. */
  ghost function NextToken(mem: seq<char>, start: Option<nat>, ct: seq<char>): (c: Call)
    requires Readable(mem, start)
    ensures Readable(c.mem, c.saved) && |c.mem| == |mem|
  {
    if start.None? || Spans(mem, start.value, ct) == [] then Call(mem, None, None)
    else
      var (a, b) := Spans(mem, start.value, ct)[0];
      if mem[b] == '\0' then Call(mem, None, Some(a))
      else
        StringAfter(mem, b);
        CutBehind(mem, b + 1, b);
        Call(mem[b := '\0'], Some(b + 1), Some(a))
  }

  /** A write in front of p leaves the string at p alone. */
  lemma CutBehind(mem: seq<char>, p: nat, b: nat)
    requires IsString(mem, p) && b < p
    ensures IsString(mem[b := '\0'], p)
  {
    var e :| EndsAt(mem, p, e);
    assert EndsAt(mem[b := '\0'], p, e);
  }

  /** ___strtok and the calls that use it. */
  class Tokenizer {
    var saved: Option<nat>

    constructor ()
      ensures saved == None
    {
      saved := None;
    }

    method Strtok(buf: array<char>, s: Option<nat>, ct: seq<char>) returns (token: Option<nat>)
      requires '\0' !in ct && Readable(buf[..], if s.Some? then s else saved)
      modifies this, buf
      ensures var call := NextToken(old(buf[..]), if s.Some? then s else old(saved), ct);
        buf[..] == call.mem && saved == call.saved && token == call.token
      ensures Readable(buf[..], saved)
    {
      var begin := if s.Some? then s else saved;
      if begin.None? {
        return None;
      }
      var skip := Strspn(buf, begin.value, ct);
      var a := begin.value + skip;
      if buf[a] == '\0' {
        saved := None;
        return None;
      }
      var end := Strpbrk(buf, a, ct);
      if end.Some? {
        buf[end.value] := '\0';
        end := Some(end.value + 1);
      }
      saved := end;
      token := Some(a);
    }
  }

  // ---- A run of calls ----

  datatype Run = Run(mem: seq<char>, saved: Option<nat>, tokens: seq<Option<nat>>)

  /** n calls in a row with the same ct, the first starting at start. */
  ghost function Calls(mem: seq<char>, start: Option<nat>, ct: seq<char>, n: nat): Run
    requires Readable(mem, start)
    decreases n
  {
    if n == 0 then Run(mem, start, [])
    else
      var c := NextToken(mem, start, ct);
      var r := Calls(c.mem, c.saved, ct, n - 1);
      r.(tokens := [c.token] + r.tokens)
  }

  /** The two memories agree from p on. */
  predicate SameFrom(mem: seq<char>, other: seq<char>, p: nat) {
    |mem| == |other| && forall k :: p <= k < |mem| ==> mem[k] == other[k]
  }

  /** Both scans end in the same places. */
  lemma ScansAgree(mem: seq<char>, other: seq<char>, p: nat, ct: seq<char>, inside: bool)
    requires IsString(mem, p) && IsString(other, p) && SameFrom(mem, other, p)
    ensures var q := Scan(mem, p, ct, inside);
      q == Scan(other, p, ct, inside) && mem[q] == other[q] && SameFrom(mem, other, q) && SameFrom(mem, other, q + 1)
  {
    ScanIs(other, p, ct, inside, Scan(mem, p, ct, inside));
  }

  lemma SpansUnfold(mem: seq<char>, p: nat, ct: seq<char>)
    requires IsString(mem, p)
    ensures var a := Scan(mem, p, ct, false);
      if mem[a] == '\0' then Spans(mem, p, ct) == []
      else
        var b := Scan(mem, a, ct, true);
        if mem[b] == '\0' then Spans(mem, p, ct) == [(a, b)]
        else IsString(mem, b + 1) && Spans(mem, p, ct) == [(a, b)] + Spans(mem, b + 1, ct)
  {
    hide Scan;
    var a := Scan(mem, p, ct, false);
    if mem[a] != '\0' {
      var b := Scan(mem, a, ct, true);
      if mem[b] != '\0' {
        StringAfter(mem, b);
      }
    }
  }

  /** The tokens of a string do not depend on what lies in front of it. */
  lemma {:induction false} SpansLocal(mem: seq<char>, other: seq<char>, p: nat, ct: seq<char>)
    requires IsString(mem, p) && IsString(other, p) && SameFrom(mem, other, p)
    ensures Spans(mem, p, ct) == Spans(other, p, ct)
    decreases |mem| - p
  {
    hide *;
    SpansUnfold(mem, p, ct);
    SpansUnfold(other, p, ct);
    ScansAgree(mem, other, p, ct, false);
    var a := Scan(mem, p, ct, false);
    if mem[a] != '\0' {
      ScansAgree(mem, other, a, ct, true);
      var b := Scan(mem, a, ct, true);
      if mem[b] != '\0' {
        SpansLocal(mem, other, b + 1, ct);
      }
    }
  }

  /** What n calls leave of the string at p whose tokens are s. */
  ghost predicate Tokenized(mem: seq<char>, s: seq<(nat, nat)>, n: nat, run: Run) {
    && |run.tokens| == n && |run.mem| == |mem|
    && (forall k :: 0 <= k < n ==> run.tokens[k] == if k < |s| then Some(s[k].0) else None)
    && (n > |s| ==> run.saved == None)
    && (forall k :: 0 <= k < n && k < |s| ==> IsToken(mem, run.mem, s[k].0, s[k].1))
    && (forall i: nat :: i < |mem| ==> ElsewhereSame(mem, s, n, run.mem, i))
  }

  /** A write by n calls at i can only be the terminator behind one of the first n tokens. */
  ghost predicate ElsewhereSame(mem: seq<char>, s: seq<(nat, nat)>, n: nat, after: seq<char>, i: nat) {
    i < |mem| == |after| && ((forall k :: 0 <= k < n && k < |s| ==> i != s[k].1) ==> after[i] == mem[i])
  }

  /** The string at a in the memory afterwards is what stood between a and b before. */
  predicate IsToken(before: seq<char>, after: seq<char>, a: nat, b: nat) {
    && a < b < |before| == |after|
    && EndsAt(after, a, b) && after[a..b] == before[a..b]
  }

  ghost function TokensLeft(mem: seq<char>, start: Option<nat>, ct: seq<char>): seq<(nat, nat)>
    requires Readable(mem, start)
  {
    if start.None? then [] else Spans(mem, start.value, ct)
  }

  predicate Unbroken(mem: seq<char>, a: nat, b: nat) {
    b <= |mem| && forall k :: a <= k < b ==> mem[k] != '\0'
  }

  predicate AllAfter(s: seq<(nat, nat)>) {
    forall k :: 1 <= k < |s| ==> s[0].1 < s[k].0 < s[k].1
  }

  /** A call takes the first token off and leaves the others as they are. */
  lemma OneCall(mem: seq<char>, start: Option<nat>, ct: seq<char>)
    requires Readable(mem, start)
    ensures var s, c := TokensLeft(mem, start, ct), NextToken(mem, start, ct);
      && TokensLeft(c.mem, c.saved, ct) == (if s == [] then [] else s[1..])
      && c.token == (if s == [] then None else Some(s[0].0))
      && c.mem == (if s == [] then mem else mem[s[0].1 := '\0'])
      && (s == [] ==> c.saved == None)
      && (s != [] ==> Unbroken(mem, s[0].0, s[0].1) && AllAfter(s))
  {
    hide Scan, Spans;
    if start.Some? {
      var p := start.value;
      SpansUnfold(mem, p, ct);
      var s := Spans(mem, p, ct);
      if s != [] {
        var (a, b) := s[0];
        if mem[b] == '\0' {
          assert mem[b := '\0'] == mem;
        } else {
          RestAfterCut(mem, a, b, ct);
        }
      }
    }
  }

  lemma RestAfterCut(mem: seq<char>, a: nat, b: nat, ct: seq<char>)
    requires b < |mem| && IsString(mem, b + 1)
    ensures IsString(mem[b := '\0'], b + 1) && Spans(mem[b := '\0'], b + 1, ct) == Spans(mem, b + 1, ct)
    ensures ([(a, b)] + Spans(mem, b + 1, ct))[1..] == Spans(mem, b + 1, ct)
  {
    CutBehind(mem, b + 1, b);
    SpansLocal(mem, mem[b := '\0'], b + 1, ct);
    hide Spans, IsString;
  }

  /** strtok(s, ct), then strtok(NULL, ct) again and again: the tokens in order, each one intact, then NULL. */
  lemma {:induction false} RunOfCalls(mem: seq<char>, start: Option<nat>, ct: seq<char>, n: nat)
    requires Readable(mem, start)
    ensures Tokenized(mem, TokensLeft(mem, start, ct), n, Calls(mem, start, ct, n))
    decreases n
  {
    if n > 0 {
      var c := NextToken(mem, start, ct);
      var s := TokensLeft(mem, start, ct);
      hide NextToken, TokensLeft, Tokenized, AllAfter, Unbroken, Readable;
      OneCall(mem, start, ct);
      assert s != [] ==> s[0].0 < s[0].1 < |mem| by {
        FirstSpan(mem, start, ct);
      }
      RunOfCalls(c.mem, c.saved, ct, n - 1);
      var r := Calls(c.mem, c.saved, ct, n - 1);
      if s == [] {
        NothingLeft(mem, n, r);
      } else {
        OneMore(mem, c.mem, s, n, r);
      }
    }
  }

  /** The saved pointer is NULL or inside the original string, in front of or at its terminator. */
  lemma {:induction false} SavedInside(mem: seq<char>, p: nat, ct: seq<char>, n: nat, e: nat)
    requires EndsAt(mem, p, e)
    ensures var r := Calls(mem, Some(p), ct, n);
      r.saved.Some? ==> p <= r.saved.value <= e && EndsAt(r.mem, r.saved.value, e)
    decreases n
  {
    if n > 0 {
      var c := NextToken(mem, Some(p), ct);
      SavedStep(mem, p, ct, e);
      CallsStep(mem, Some(p), ct, n);
      hide *;
      if c.saved.Some? {
        SavedInside(c.mem, c.saved.value, ct, n - 1, e);
      } else {
        NoMoreCalls(c.mem, ct, n - 1);
      }
    }
  }

  lemma CallsStep(mem: seq<char>, start: Option<nat>, ct: seq<char>, n: nat)
    requires Readable(mem, start) && n > 0
    ensures var c := NextToken(mem, start, ct);
      Calls(mem, start, ct, n).saved == Calls(c.mem, c.saved, ct, n - 1).saved
      && Calls(mem, start, ct, n).mem == Calls(c.mem, c.saved, ct, n - 1).mem
  {
    hide NextToken;
  }

  lemma SavedStep(mem: seq<char>, p: nat, ct: seq<char>, e: nat)
    requires EndsAt(mem, p, e)
    ensures var c := NextToken(mem, Some(p), ct);
      c.saved.Some? ==> p <= c.saved.value <= e && EndsAt(c.mem, c.saved.value, e)
  {
    SpansUnfold(mem, p, ct);
    hide Scan, Spans;
  }

  lemma {:induction false} NoMoreCalls(mem: seq<char>, ct: seq<char>, n: nat)
    ensures Calls(mem, None, ct, n).saved == None
    decreases n
  {
    if n > 0 {
      NoMoreCalls(mem, ct, n - 1);
    }
  }

  lemma FirstSpan(mem: seq<char>, start: Option<nat>, ct: seq<char>)
    requires Readable(mem, start)
    ensures var s := TokensLeft(mem, start, ct);
      s != [] ==> s[0].0 < s[0].1 < |mem|
  {
  }

  lemma NothingLeft(mem: seq<char>, n: nat, r: Run)
    requires n > 0 && Tokenized(mem, [], n - 1, r) && (n == 1 ==> r.saved == None)
    ensures Tokenized(mem, [], n, r.(tokens := [None] + r.tokens))
  {
    forall i: nat | i < |mem| ensures ElsewhereSame(mem, [], n, r.mem, i) {
      assert ElsewhereSame(mem, [], n - 1, r.mem, i);
    }
  }

  lemma OneMore(mem: seq<char>, cut: seq<char>, s: seq<(nat, nat)>, n: nat, r: Run)
    requires n > 0 && |s| > 0 && s[0].0 < s[0].1 < |mem| && cut == mem[s[0].1 := '\0']
    requires Unbroken(mem, s[0].0, s[0].1) && AllAfter(s)
    requires Tokenized(cut, s[1..], n - 1, r)
    ensures Tokenized(mem, s, n, r.(tokens := [Some(s[0].0)] + r.tokens))
  {
    var t := s[1..];
    assert forall k :: 1 <= k < |s| ==> t[k - 1] == s[k];
    hide IsToken, Unbroken;
    forall i: nat | i < |mem| ensures ElsewhereSame(mem, s, n, r.mem, i) && (i <= s[0].1 ==> r.mem[i] == cut[i]) {
      hide ElsewhereSame;
      Elsewhere(mem, cut, s, n, r, i);
    }
    assert IsToken(mem, r.mem, s[0].0, s[0].1) by {
      FirstToken(mem, cut, r.mem, s[0].0, s[0].1);
    }
    forall k | 1 <= k < n && k < |s| ensures IsToken(mem, r.mem, s[k].0, s[k].1) {
      LaterTokens(mem, cut, s, n, r, k);
    }
    hide ElsewhereSame, AllAfter;
  }

  lemma LaterTokens(mem: seq<char>, cut: seq<char>, s: seq<(nat, nat)>, n: nat, r: Run, k: nat)
    requires |s| > 0 && s[0].1 < |mem| && cut == mem[s[0].1 := '\0'] && AllAfter(s)
    requires n > 0 && Tokenized(cut, s[1..], n - 1, r) && 1 <= k < n && k < |s|
    ensures IsToken(mem, r.mem, s[k].0, s[k].1)
  {
    hide IsToken, ElsewhereSame;
    var t, j := s[1..], k - 1;
    assert t[j] == s[k];
    assert IsToken(cut, r.mem, t[j].0, t[j].1);
    LaterToken(mem, cut, r.mem, s[0].1, s[k].0, s[k].1);
  }

  lemma Elsewhere(mem: seq<char>, cut: seq<char>, s: seq<(nat, nat)>, n: nat, r: Run, i: nat)
    requires n > 0 && |s| > 0 && s[0].1 < |mem| && cut == mem[s[0].1 := '\0'] && AllAfter(s)
    requires Tokenized(cut, s[1..], n - 1, r) && i < |mem|
    ensures ElsewhereSame(mem, s, n, r.mem, i) && (i <= s[0].1 ==> r.mem[i] == cut[i])
  {
    var t := s[1..];
    assert ElsewhereSame(cut, t, n - 1, r.mem, i);
    assert forall k :: 1 <= k < |s| ==> t[k - 1] == s[k] && s[0].1 < s[k].1;
    if exists k :: 0 <= k < n - 1 && k < |t| && i == t[k].1 {
      var k :| 0 <= k < n - 1 && k < |t| && i == t[k].1;
      var later := k + 1;
      assert t[k] == s[later] && i == s[later].1 && later < n && later < |s|;
    } else {
      assert r.mem[i] == cut[i];
      assert i == s[0].1 || cut[i] == mem[i];
    }
  }

  lemma FirstToken(mem: seq<char>, cut: seq<char>, after: seq<char>, a: nat, b: nat)
    requires a < b < |mem| == |after| && cut == mem[b := '\0'] && Unbroken(mem, a, b)
    requires forall i :: 0 <= i <= b ==> after[i] == cut[i]
    ensures IsToken(mem, after, a, b)
  {
    assert after[a..b] == mem[a..b];
  }

  lemma LaterToken(mem: seq<char>, cut: seq<char>, after: seq<char>, c: nat, a: nat, b: nat)
    requires c < |mem| && cut == mem[c := '\0'] && c < a && IsToken(cut, after, a, b)
    ensures IsToken(mem, after, a, b)
  {
    assert cut[a..b] == mem[a..b];
  }
}
