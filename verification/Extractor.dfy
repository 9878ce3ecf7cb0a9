/**
 The token extractor: a writer that looks for the last setup token in a stream it only ever
 sees in chunks, keeping the last 4096 bytes in a buffer it compacts in place.
 */
module Extractor {
  import opened Options

  newtype byte = x: int | 0 <= x < 256

  const TAIL_WINDOW: nat := 4096

  /** "sk-ant-oat01-" */
  const PREFIX: seq<byte> := [115, 107, 45, 97, 110, 116, 45, 111, 97, 116, 48, 49, 45]

  // ---------------------------------------------------------------- tokenPattern

  /** [A-Za-z0-9_-] */
  predicate Body(b: byte) {
    65 <= b <= 90 || 97 <= b <= 122 || 48 <= b <= 57 || b == 95 || b == 45
  }

  /** The first k bytes of the prefix stand at i. */
  predicate PrefixAt(s: seq<byte>, i: nat, k: nat)
    requires k <= |PREFIX| && i + k <= |s|
  {
    k == 0 || (PrefixAt(s, i, k - 1) && s[i + k - 1] == PREFIX[k - 1])
  }

  /** The pattern matches at i: the prefix and at least one more byte. */
  predicate Starts(s: seq<byte>, i: nat) {
    i + 13 < |s| && PrefixAt(s, i, |PREFIX|) && Body(s[i + 13])
  }

  /** Where the greedy run of body bytes ends. */
  function RunEnd(s: seq<byte>, i: nat): (e: nat)
    requires i <= |s|
    ensures i <= e <= |s| && (e < |s| ==> !Body(s[e]))
    ensures forall j :: i <= j < e ==> Body(s[j])
    decreases |s| - i
  {
    if i == |s| || !Body(s[i]) then i else RunEnd(s, i + 1)
  }

  /** All matches from i on, leftmost first, not overlapping. */
  function FindAll(s: seq<byte>, i: nat): seq<(nat, nat)>
    decreases |s| - i
  {
    if i >= |s| then []
    else if Starts(s, i) then [(i, RunEnd(s, i + 13))] + FindAll(s, RunEnd(s, i + 13))
    else FindAll(s, i + 1)
  }

  /** The text of the last match; empty when there is none. */
  function LastToken(s: seq<byte>): seq<byte> {
    var all := FindAll(s, 0);
    if all == [] then [] else Text(s, all[|all| - 1])
  }

  function Text(s: seq<byte>, span: (nat, nat)): seq<byte> {
    if span.0 <= span.1 <= |s| then s[span.0..span.1] else []
  }

  // ---------------------------------------------------------------- what the last match is

  /** a..e is the last match from i on: the first start of its run, and nothing starts
      behind it. */
  ghost predicate LastFrom(s: seq<byte>, i: nat, a: nat, e: nat) {
    && i <= a && Starts(s, a) && e == RunEnd(s, a + 13)
    && NoStartFrom(s, e)
    && (forall j: nat :: i <= j < a && Starts(s, j) ==> RunEnd(s, j + 13) <= a)
  }

  ghost predicate NoStartFrom(s: seq<byte>, i: nat) {
    forall j: nat :: j >= i ==> !Starts(s, j)
  }

  ghost predicate IsLast(s: seq<byte>, a: nat, e: nat) {
    LastFrom(s, 0, a, e)
  }

  lemma OneMoreByte(s: seq<byte>, i: nat, j: nat)
    requires i <= j < |s|
    ensures s[i..j + 1] == s[i..j] + [s[j]]
  {
  }

  lemma {:induction false} PrefixBytes(s: seq<byte>, i: nat, k: nat)
    requires k <= |PREFIX| && i + k <= |s|
    ensures PrefixAt(s, i, k) <==> s[i..i + k] == PREFIX[..k]
  {
    if k > 0 {
      PrefixBytes(s, i, k - 1);
      OneMoreByte(s, i, i + k - 1);
      OneMoreByte(PREFIX, 0, k - 1);
    }
  }

  lemma PrefixIsBody(s: seq<byte>, i: nat)
    requires Starts(s, i)
    ensures forall k :: i <= k <= i + 13 ==> Body(s[k])
  {
    PrefixBytes(s, i, |PREFIX|);
    forall k | i <= k < i + 13 ensures Body(s[k]) {
      assert s[k] == s[i..i + 13][k - i] == PREFIX[k - i];
    }
  }

  lemma RunEndIs(s: seq<byte>, i: nat, e: nat)
    requires i <= e <= |s| && (e < |s| ==> !Body(s[e]))
    requires forall j :: i <= j < e ==> Body(s[j])
    ensures RunEnd(s, i) == e
  {
  }

  /** Two starts without a foreign byte in between share their run. */
  lemma SameRun(s: seq<byte>, i: nat, j: nat)
    requires Starts(s, i) && Starts(s, j) && i <= j < RunEnd(s, i + 13)
    ensures RunEnd(s, j + 13) == RunEnd(s, i + 13)
  {
    PrefixIsBody(s, i);
    PrefixIsBody(s, j);
    var e := RunEnd(s, i + 13);
    assert j + 13 <= e;
    RunEndIs(s, j + 13, e);
  }

  /** A match in front of the last one keeps it last. */
  lemma LastStays(s: seq<byte>, i: nat, a: nat, e: nat)
    requires Starts(s, i) && LastFrom(s, RunEnd(s, i + 13), a, e)
    ensures LastFrom(s, i, a, e)
  {
    forall j: nat | i <= j < a && Starts(s, j) ensures RunEnd(s, j + 13) <= a {
      if j < RunEnd(s, i + 13) {
        SameRun(s, i, j);
      }
    }
  }

  lemma FindAllUnfold(s: seq<byte>, i: nat)
    requires i < |s|
    ensures FindAll(s, i) == if Starts(s, i) then [(i, RunEnd(s, i + 13))] + FindAll(s, RunEnd(s, i + 13))
                             else FindAll(s, i + 1)
  {
  }

  /** FindAll is empty exactly when nothing starts, and its last element is the last match. */
  lemma {:induction false} FindAllLast(s: seq<byte>, i: nat)
    ensures FindAll(s, i) == [] <==> NoStartFrom(s, i)
    ensures var all := FindAll(s, i);
            all != [] ==> LastFrom(s, i, all[|all| - 1].0, all[|all| - 1].1)
    decreases |s| - i
  {
    if i < |s| {
      var all := FindAll(s, i);
      FindAllUnfold(s, i);
      if Starts(s, i) {
        var e0 := RunEnd(s, i + 13);
        var rest := FindAll(s, e0);
        FindAllLast(s, e0);
        if rest == [] {
          assert all == [(i, e0)];
        } else {
          assert all[|all| - 1] == rest[|rest| - 1];
          LastStays(s, i, rest[|rest| - 1].0, rest[|rest| - 1].1);
        }
      } else {
        FindAllLast(s, i + 1);
      }
    }
  }

  lemma LastIsUnique(s: seq<byte>, a: nat, e: nat, b: nat, f: nat)
    requires LastFrom(s, 0, a, e) && LastFrom(s, 0, b, f)
    ensures a == b && e == f
  {
    assert a < f && b < e;
  }

  lemma MatchIsFound(s: seq<byte>, a: nat)
    requires Starts(s, a)
    ensures FindAll(s, 0) != []
  {
    FindAllLast(s, 0);
  }

  lemma SpanIs(s: seq<byte>, span: (nat, nat), a: nat, e: nat)
    requires IsLast(s, a, e) && IsLast(s, span.0, span.1)
    ensures e <= |s| && Text(s, span) == s[a..e]
  {
    LastIsUnique(s, a, e, span.0, span.1);
  }

  lemma LastTokenIs(s: seq<byte>, a: nat, e: nat)
    requires IsLast(s, a, e)
    ensures e <= |s| && LastToken(s) == s[a..e] && FindAll(s, 0) != []
  {
    MatchIsFound(s, a);
    FindAllLast(s, 0);
    SpanIs(s, FindAll(s, 0)[|FindAll(s, 0)| - 1], a, e);
  }

  lemma LastExists(s: seq<byte>) returns (a: nat, e: nat)
    requires FindAll(s, 0) != []
    ensures IsLast(s, a, e) && e <= |s| && LastToken(s) == s[a..e]
  {
    FindAllLast(s, 0);
    var last := FindAll(s, 0)[|FindAll(s, 0)| - 1];
    a, e := last.0, last.1;
  }

  // ---------------------------------------------------------------- tokens as they are written

  /** The bytes of an ASCII text. */
  function Bytes(text: string): seq<byte>
    requires forall i :: 0 <= i < |text| ==> text[i] < '\U{80}'
  {
    seq(|text|, i requires 0 <= i < |text| => text[i] as int as byte)
  }

  const HEAD: string := "sk-ant-oat01-"

  const UPPER: string := "ABCDEFGHIJKLMNOPQRSTUVWXYZ"
  const LOWER: string := "abcdefghijklmnopqrstuvwxyz"
  const DIGITS: string := "0123456789"
  const SIGNS: string := "_-"

  predicate InAlphabet(b: byte) {
    b < 128 && var c := b as int as char; c in UPPER || c in LOWER || c in DIGITS || c in SIGNS
  }

  lemma UpperIs(c: char)
    ensures c in UPPER <==> 65 <= c as int <= 90
  {
    assert forall i :: 0 <= i < |UPPER| ==> UPPER[i] as int == 65 + i;
    if 65 <= c as int <= 90 {
      assert UPPER[c as int - 65] == c;
    }
  }

  lemma LowerIs(c: char)
    ensures c in LOWER <==> 97 <= c as int <= 122
  {
    assert forall i :: 0 <= i < |LOWER| ==> LOWER[i] as int == 97 + i;
    if 97 <= c as int <= 122 {
      assert LOWER[c as int - 97] == c;
    }
  }

  lemma DigitIs(c: char)
    ensures c in DIGITS <==> 48 <= c as int <= 57
  {
    assert forall i :: 0 <= i < |DIGITS| ==> DIGITS[i] as int == 48 + i;
    if 48 <= c as int <= 57 {
      assert DIGITS[c as int - 48] == c;
    }
  }

  lemma AlphabetIsBody(b: byte)
    ensures Body(b) <==> InAlphabet(b)
  {
    if b < 128 {
      UpperIs(b as int as char);
      LowerIs(b as int as char);
      DigitIs(b as int as char);
      assert SIGNS == ['_', '-'];
    }
  }

  /** A written token: the head and one or more characters of the alphabet. */
  ghost predicate IsToken(t: seq<byte>) {
    |t| > |HEAD| && t[..|HEAD|] == Bytes(HEAD) && forall i :: |HEAD| <= i < |t| ==> InAlphabet(t[i])
  }

  /** The same, as the pattern has it. */
  ghost predicate Matches(t: seq<byte>) {
    |t| > 13 && t[..13] == PREFIX && forall i :: 13 <= i < |t| ==> Body(t[i])
  }

  lemma TokensMatch(t: seq<byte>)
    ensures IsToken(t) <==> Matches(t)
  {
    assert Bytes(HEAD) == PREFIX && |HEAD| == 13;
    forall i | 13 <= i < |t| ensures InAlphabet(t[i]) <==> Body(t[i]) {
      AlphabetIsBody(t[i]);
    }
  }

  /** Some token begins at i. */
  ghost predicate TokenAt(s: seq<byte>, i: nat) {
    i + 14 <= |s| && IsToken(s[i..i + 14])
  }

  lemma StartsAtMatch(s: seq<byte>, i: nat)
    requires i + 14 <= |s|
    ensures Starts(s, i) <==> Matches(s[i..i + 14])
  {
    PrefixBytes(s, i, |PREFIX|);
    assert s[i..i + 14][..13] == s[i..i + 13];
    assert PREFIX[..13] == PREFIX;
  }

  /** The pattern matches exactly where a token begins. */
  lemma StartsAtToken(s: seq<byte>, i: nat)
    ensures Starts(s, i) <==> TokenAt(s, i)
  {
    if i + 14 <= |s| {
      StartsAtMatch(s, i);
      TokensMatch(s[i..i + 14]);
    }
  }

  lemma LastMatches(z: seq<byte>)
    ensures LastToken(z) != [] ==> Matches(LastToken(z))
  {
    if LastToken(z) != [] {
      var a, e := LastExists(z);
      var t := z[a..e];
      PrefixBytes(z, a, |PREFIX|);
      assert t[..13] == z[a..a + 13] && PREFIX[..13] == PREFIX;
    }
  }

  /** Whatever is extracted is a token. */
  lemma ExtractedIsToken(z: seq<byte>)
    ensures LastToken(z) != [] ==> IsToken(LastToken(z))
  {
    LastMatches(z);
    TokensMatch(LastToken(z));
  }

  /** A token that stands between foreign bytes, and behind which no other begins, is extracted
      whole. */
  lemma TokenIsExtracted(before: seq<byte>, t: seq<byte>, after: seq<byte>)
    requires IsToken(t)
    requires before != [] ==> !InAlphabet(before[|before| - 1])
    requires after != [] ==> !InAlphabet(after[0])
    requires forall j: nat :: !TokenAt(after, j)
    ensures LastToken(before + t + after) == t && IsLast(before + t + after, |before|, |before| + |t|)
  {
    TokensMatch(t);
    if before != [] {
      AlphabetIsBody(before[|before| - 1]);
    }
    if after != [] {
      AlphabetIsBody(after[0]);
    }
    forall j: nat ensures !Starts(after, j) {
      StartsAtToken(after, j);
    }
    MatchIsExtracted(before, t, after);
  }

  lemma MatchIsExtracted(before: seq<byte>, t: seq<byte>, after: seq<byte>)
    requires Matches(t) && NoStartFrom(after, 0)
    requires before != [] ==> !Body(before[|before| - 1])
    requires after != [] ==> !Body(after[0])
    ensures LastToken(before + t + after) == t && IsLast(before + t + after, |before|, |before| + |t|)
  {
    var z, a, e := before + t + after, |before|, |before| + |t|;
    MatchRun(before, t, after);
    forall j: nat | j >= e ensures !Starts(z, j) {
      assert z[e..|z|] == after;
      StartsInPart(z, e, |z|, j - e);
    }
    forall j: nat | j < a && Starts(z, j) ensures RunEnd(z, j + 13) <= a {
      RunsStop(z, j, a);
    }
    LastTokenIs(z, a, e);
    assert z[a..e] == t;
  }

  /** The pattern matches the written token and nothing more. */
  lemma MatchRun(before: seq<byte>, t: seq<byte>, after: seq<byte>)
    requires Matches(t) && (after != [] ==> !Body(after[0]))
    ensures var z, a := before + t + after, |before|; Starts(z, a) && RunEnd(z, a + 13) == a + |t|
  {
    var z, a, e := before + t + after, |before|, |before| + |t|;
    assert z[a..e] == t;
    assert z[a..a + 14] == t[..14];
    assert t[..14][..13] == t[..13];
    StartsAtMatch(z, a);
    forall i | a + 13 <= i < e ensures Body(z[i]) {
      assert z[i] == t[i - a];
    }
    RunEndIs(z, a + 13, e);
  }

  /** A match that begins before a foreign byte ends before it. */
  lemma RunsStop(z: seq<byte>, j: nat, a: nat)
    requires Starts(z, j) && j < a <= |z| && !Body(z[a - 1])
    ensures RunEnd(z, j + 13) <= a
  {
    PrefixIsBody(z, j);
  }

  // ---------------------------------------------------------------- the sliding window

  function LastN(s: seq<byte>, n: nat): seq<byte> {
    if |s| <= n then s else s[|s| - n..]
  }

  datatype Memory = Memory(tail: seq<byte>, token: seq<byte>)

  /** What one Write makes of the buffer and the token. */
  function Absorb(m: Memory, p: seq<byte>): Memory {
    var t := m.tail + p;
    Memory(LastN(t, TAIL_WINDOW), if FindAll(t, 0) == [] then m.token else LastToken(t))
  }

  function Concat(chunks: seq<seq<byte>>): seq<byte> {
    if chunks == [] then [] else Concat(chunks[..|chunks| - 1]) + chunks[|chunks| - 1]
  }

  /** The memory after writing the chunks one after the other. */
  function Feed(chunks: seq<seq<byte>>): Memory {
    if chunks == [] then Memory([], []) else Absorb(Feed(chunks[..|chunks| - 1]), chunks[|chunks| - 1])
  }

  /** Whatever the chunking, the buffer holds the last 4096 bytes. */
  lemma {:induction false} TailIsWindow(chunks: seq<seq<byte>>)
    ensures Feed(chunks).tail == LastN(Concat(chunks), TAIL_WINDOW)
    ensures var z := Concat(chunks); Feed(chunks).tail == z[if |z| > 4096 then |z| - 4096 else 0..]
  {
    if chunks != [] {
      TailIsWindow(chunks[..|chunks| - 1]);
    }
  }

  /**
   The streams for which the chunking cannot matter: there is no match; or the stream ends
   within 4096 bytes of the start of its last match; or that match is at most one byte
   longer than the window and no other match could start inside it.
   */
  ghost predicate Stable(z: seq<byte>) {
    forall a: nat, e: nat :: IsLast(z, a, e) ==>
      |z| <= a + TAIL_WINDOW || (e - a <= TAIL_WINDOW + 1 && NoStartInside(z, a, e))
  }

  ghost predicate NoStartInside(s: seq<byte>, a: nat, e: nat) {
    forall j: nat :: a < j < e ==> !Starts(s, j)
  }

  /** Looking at a part of the stream shows the same starts, up to the cut at its end. */
  lemma StartsInPart(z: seq<byte>, k: nat, m: nat, j: nat)
    requires k <= m <= |z|
    ensures Starts(z[k..m], j) <==> k + j + 13 < m && Starts(z, k + j)
  {
    var t := z[k..m];
    if k + j + 13 < m {
      PartOfPart(z, k, m, j, j + 13);
      PrefixBytes(t, j, |PREFIX|);
      PrefixBytes(z, k + j, |PREFIX|);
    }
  }

  lemma PartOfPart(z: seq<byte>, k: nat, m: nat, i: nat, j: nat)
    requires k <= m <= |z| && i <= j <= m - k
    ensures z[k..m][i..j] == z[k + i..k + j]
  {
    var l, r := z[k..m][i..j], z[k + i..k + j];
    forall x | 0 <= x < |l| ensures l[x] == r[x] {
      assert l[x] == z[k..m][i + x] == z[k + i + x];
    }
  }

  lemma RunEndInPart(z: seq<byte>, k: nat, m: nat, j: nat)
    requires k <= m <= |z| && k + j <= m
    ensures RunEnd(z[k..m], j) == if RunEnd(z, k + j) <= m then RunEnd(z, k + j) - k else m - k
  {
    var e := RunEnd(z, k + j);
    RunEndIs(z[k..m], j, if e <= m then e - k else m - k);
  }

  /** The last match of the stream is the last match of a part that contains it. */
  lemma LastInPart(z: seq<byte>, k: nat, m: nat, a: nat, e: nat)
    requires IsLast(z, a, e) && k <= a && e <= m <= |z|
    ensures IsLast(z[k..m], a - k, e - k)
  {
    var t := z[k..m];
    StartsInPart(z, k, m, a - k);
    RunEndInPart(z, k, m, a - k + 13);
    forall j: nat | j >= e - k ensures !Starts(t, j) {
      StartsInPart(z, k, m, j);
    }
    forall j: nat | j < a - k && Starts(t, j) ensures RunEnd(t, j + 13) <= a - k {
      StartsInPart(z, k, m, j);
      RunEndInPart(z, k, m, j + 13);
    }
  }

  /** What the next Write searches is a part of the stream. */
  lemma SearchedPart(z: seq<byte>, chunks: seq<seq<byte>>) returns (k: nat, m: nat)
    requires chunks != [] && Concat(chunks) <= z
    ensures var before := chunks[..|chunks| - 1];
            && k <= |Concat(before)| <= m == |Concat(chunks)| <= |z|
            && k == (if |Concat(before)| <= TAIL_WINDOW then 0 else |Concat(before)| - TAIL_WINDOW)
            && Concat(before) <= z
            && Feed(before).tail + chunks[|chunks| - 1] == z[k..m]
  {
    var before, p := chunks[..|chunks| - 1], chunks[|chunks| - 1];
    TailIsWindow(before);
    var s0 := Concat(before);
    k := if |s0| <= TAIL_WINDOW then 0 else |s0| - TAIL_WINDOW;
    m := |Concat(chunks)|;
    assert Concat(chunks) == s0 + p;
    assert s0 == z[..|s0|];
    assert p == z[|s0|..m];
  }

  /** Once the last match has arrived completely, the token is that match. */
  lemma {:induction false} TokenArrives(z: seq<byte>, a: nat, e: nat, chunks: seq<seq<byte>>)
    requires Stable(z) && IsLast(z, a, e)
    requires Concat(chunks) <= z && e <= |Concat(chunks)|
    ensures Feed(chunks).token == z[a..e]
  {
    assert chunks != [];
    var before := chunks[..|chunks| - 1];
    var k, m := SearchedPart(z, chunks);
    assert Feed(chunks) == Absorb(Feed(before), chunks[|chunks| - 1]);
    if k <= a {
      SeenWhole(z, k, m, a, e);
    } else {
      TokenArrives(z, a, e, before);
      NothingLeft(z, a, e, k, m);
    }
  }

  lemma SeenWhole(z: seq<byte>, k: nat, m: nat, a: nat, e: nat)
    requires IsLast(z, a, e) && k <= a && e <= m <= |z|
    ensures FindAll(z[k..m], 0) != [] && LastToken(z[k..m]) == z[a..e]
  {
    LastInPart(z, k, m, a, e);
    LastTokenIs(z[k..m], a - k, e - k);
    PartOfPart(z, k, m, a - k, e - k);
  }

  /** A window that begins inside the last match of a stable stream shows no match. */
  lemma NothingLeft(z: seq<byte>, a: nat, e: nat, k: nat, m: nat)
    requires Stable(z) && IsLast(z, a, e) && a < k <= m <= |z| && |z| > a + TAIL_WINDOW
    ensures FindAll(z[k..m], 0) == []
  {
    FindAllLast(z[k..m], 0);
    forall j: nat ensures !Starts(z[k..m], j) {
      StartsInPart(z, k, m, j);
    }
  }

  lemma {:induction false} NoTokenAtAll(z: seq<byte>, chunks: seq<seq<byte>>)
    requires NoStartFrom(z, 0) && Concat(chunks) <= z
    ensures Feed(chunks).token == []
  {
    if chunks != [] {
      var k, m := SearchedPart(z, chunks);
      NoTokenAtAll(z, chunks[..|chunks| - 1]);
      FindAllLast(z[k..m], 0);
      forall j: nat ensures !Starts(z[k..m], j) {
        StartsInPart(z, k, m, j);
      }
    }
  }

  lemma StableSuffices(z: seq<byte>, chunks: seq<seq<byte>>)
    requires Stable(z) && Concat(chunks) == z
    ensures Feed(chunks).token == LastToken(z)
  {
    FindAllLast(z, 0);
    if FindAll(z, 0) == [] {
      NoTokenAtAll(z, chunks);
    } else {
      var a, e := LastExists(z);
      TokenArrives(z, a, e, chunks);
    }
  }

  lemma OneMore(chunks: seq<seq<byte>>, p: seq<byte>)
    ensures Concat(chunks + [p]) == Concat(chunks) + p
    ensures Feed(chunks + [p]) == Absorb(Feed(chunks), p)
  {
    assert (chunks + [p])[..|chunks|] == chunks;
  }

  /** The cut that loses the token of an unstable stream: one byte after the start of the
      last match leaves the window. */
  lemma UnstableBreaks(z: seq<byte>) returns (chunks: seq<seq<byte>>)
    requires !Stable(z)
    ensures Concat(chunks) == z && Feed(chunks).token != LastToken(z)
  {
    var a: nat, e: nat :| IsLast(z, a, e) && |z| > a + TAIL_WINDOW
      && (e - a > TAIL_WINDOW + 1 || !NoStartInside(z, a, e));
    chunks := TwoWrites(z, a + TAIL_WINDOW + 1);
    FirstCut(z, a + TAIL_WINDOW + 1, a + 1);
    CutLoses(z, a, e);
  }

  lemma TwoWrites(z: seq<byte>, b: nat) returns (chunks: seq<seq<byte>>)
    requires b <= |z|
    ensures Concat(chunks) == z && Feed(chunks) == Absorb(Absorb(Memory([], []), z[..b]), z[b..])
  {
    var none: seq<seq<byte>> := [];
    OneMore(none, z[..b]);
    OneMore(none + [z[..b]], z[b..]);
    chunks := none + [z[..b]] + [z[b..]];
    var empty: seq<byte> := [];
    assert Concat(none) == empty && empty + z[..b] == z[..b];
  }

  /** The buffer after the first chunk is its last 4096 bytes. */
  lemma FirstCut(z: seq<byte>, b: nat, k: nat)
    requires b <= |z| && k + TAIL_WINDOW == b
    ensures Absorb(Memory([], []), z[..b]) == Memory(z[k..b], LastToken(z[..b]))
    ensures z[k..b] + z[b..] == z[k..|z|]
  {
    assert [] + z[..b] == z[..b];
    assert LastN(z[..b], TAIL_WINDOW) == z[k..b];
  }

  lemma CutLoses(z: seq<byte>, a: nat, e: nat)
    requires IsLast(z, a, e) && |z| > a + TAIL_WINDOW
    requires e - a > TAIL_WINDOW + 1 || !NoStartInside(z, a, e)
    ensures var first := Memory(z[a + 1..a + 1 + TAIL_WINDOW], LastToken(z[..a + TAIL_WINDOW + 1]));
            Absorb(first, z[a + TAIL_WINDOW + 1..]).token != LastToken(z)
  {
    LastTokenIs(z, a, e);
    var b := a + TAIL_WINDOW + 1;
    var t := z[a + 1..|z|];
    assert z[a + 1..b] + z[b..] == t;
    if FindAll(t, 0) != [] {
      ShorterBehind(z, a, e);
    } else {
      FindAllLast(t, 0);
      forall j: nat | a < j < e ensures !Starts(z, j) {
        StartsInPart(z, a + 1, |z|, j - a - 1);
      }
      assert NoStartInside(z, a, e);
      TruncatedLast(z, a, e, b);
    }
  }

  /** Whatever matches behind the start of the last match is shorter. */
  lemma ShorterBehind(z: seq<byte>, a: nat, e: nat)
    requires IsLast(z, a, e) && FindAll(z[a + 1..|z|], 0) != []
    ensures |LastToken(z[a + 1..|z|])| < e - a
  {
    var x, f := LastExists(z[a + 1..|z|]);
    StartsInPart(z, a + 1, |z|, x);
    var y := a + 1 + x;
    assert Starts(z, y) && y < e;
    SameRun(z, a, y);
    RunEndInPart(z, a + 1, |z|, x + 13);
    assert f == e - (a + 1);
  }

  /** Cut inside its last match, the stream still ends with the part seen so far. */
  lemma TruncatedLast(z: seq<byte>, a: nat, e: nat, b: nat)
    requires IsLast(z, a, e) && a + 13 < b <= e
    ensures LastToken(z[..b]) == z[a..b] && FindAll(z[..b], 0) != []
  {
    var t := z[0..b];
    assert z[..b] == t;
    StartsInPart(z, 0, b, a);
    RunEndInPart(z, 0, b, a + 13);
    forall j: nat | j < a && Starts(t, j) ensures RunEnd(t, j + 13) <= a {
      StartsInPart(z, 0, b, j);
      RunEndInPart(z, 0, b, j + 13);
    }
    assert IsLast(t, a, b);
    LastTokenIs(t, a, b);
    assert t[a..b] == z[a..b];
  }

  /**
   The token is the last match of everything written, for every way of cutting the stream
   into chunks, if and only if the stream is stable.
   */
  lemma ChunkingIsIrrelevantIffStable(z: seq<byte>)
    ensures (forall chunks :: Concat(chunks) == z ==> Feed(chunks).token == LastToken(z)) <==> Stable(z)
  {
    if Stable(z) {
      forall chunks | Concat(chunks) == z ensures Feed(chunks).token == LastToken(z) {
        StableSuffices(z, chunks);
      }
    } else {
      var chunks := UnstableBreaks(z);
    }
  }

  /** A token written among other text is found for every chunking while no more than 4096
      bytes have come since it began. */
  lemma WrittenTokenIsFound(before: seq<byte>, t: seq<byte>, after: seq<byte>, chunks: seq<seq<byte>>)
    requires IsToken(t) && |t| + |after| <= 4096
    requires before != [] ==> !InAlphabet(before[|before| - 1])
    requires after != [] ==> !InAlphabet(after[0])
    requires forall j: nat :: !TokenAt(after, j)
    requires Concat(chunks) == before + t + after
    ensures Feed(chunks).token == t
  {
    var z := before + t + after;
    TokenIsExtracted(before, t, after);
    forall a: nat, e: nat | IsLast(z, a, e) ensures |z| <= a + TAIL_WINDOW {
      LastIsUnique(z, a, e, |before|, |before| + |t|);
    }
    StableSuffices(z, chunks);
  }

  /** Streams whose matches all fit the window and contain the prefix once are stable. */
  lemma ShortMatchesAreStable(z: seq<byte>)
    requires forall m :: m in FindAll(z, 0) ==> m.1 - m.0 <= TAIL_WINDOW && NoStartInside(z, m.0, m.1)
    ensures Stable(z)
  {
    forall a: nat, e: nat | IsLast(z, a, e) ensures e - a <= TAIL_WINDOW && NoStartInside(z, a, e) {
      MatchIsFound(z, a);
      FindAllLast(z, 0);
      var last := FindAll(z, 0)[|FindAll(z, 0)| - 1];
      assert last in FindAll(z, 0);
      LastIsUnique(z, a, e, last.0, last.1);
    }
  }

  /** A stream that is one token of more than 4097 bytes is not. */
  lemma LongTokenIsUnstable(body: seq<byte>)
    requires |body| + |PREFIX| > TAIL_WINDOW + 1 && forall i :: 0 <= i < |body| ==> Body(body[i])
    ensures !Stable(PREFIX + body)
  {
    var z := PREFIX + body;
    assert z[0..0 + |PREFIX|] == PREFIX[..|PREFIX|];
    PrefixBytes(z, 0, |PREFIX|);
    assert forall j :: 13 <= j < |z| ==> z[j] == body[j - 13];
    RunEndIs(z, 13, |z|);
    assert IsLast(z, 0, |z|);
  }

  lemma UnstableStreamsExist() returns (z: seq<byte>)
    ensures !Stable(z)
  {
    var body := seq(5000, _ => 65 as byte);
    LongTokenIsUnstable(body);
    z := PREFIX + body;
  }

  // ---------------------------------------------------------------- the writer itself

  class Extractor {
    var buf: array<byte>   // the array under the slice `tail`
    var len: nat
    var token: seq<byte>

    ghost predicate Valid()
      reads this, buf
    {
      len <= buf.Length
    }

    ghost function State(): Memory
      requires Valid()
      reads this, buf
    {
      Memory(buf[..len], token)
    }

    constructor ()
      ensures Valid() && fresh(buf) && State() == Memory([], [])
    {
      buf := new byte[0];
      len := 0;
      token := [];
    }

    /** A larger array that begins with the current contents. */
    method Grow(size: nat) returns (data: array<byte>)
      requires Valid() && len <= size
      ensures fresh(data) && data.Length == size && data[..len] == buf[..len]
    {
      data := new byte[size];
      for i := 0 to len
        invariant data[..i] == buf[..i]
      {
        data[i] := buf[i];
      }
    }

    /** append(tail, p...): in place while there is room, into a larger array otherwise. */
    method Append(p: seq<byte>)
      requires Valid()
      modifies this`buf, this`len, buf
      ensures Valid() && (buf == old(buf) || fresh(buf))
      ensures buf[..len] == old(buf[..len]) + p && token == old(token)
    {
      var data := buf;
      if len + |p| > buf.Length {
        data := Grow(2 * buf.Length + |p|);
      }
      Fill(data, len, p);
      buf, len := data, len + |p|;
    }

    static method Fill(data: array<byte>, at: nat, p: seq<byte>)
      requires at + |p| <= data.Length
      modifies data
      ensures data[..at + |p|] == old(data[..at]) + p
    {
      for i := 0 to |p|
        invariant data[..at] == old(data[..at])
        invariant data[at..at + i] == p[..i]
      {
        data[at + i] := p[i];
      }
      assert data[..at + |p|] == data[..at] + data[at..at + |p|];
    }

    /** copy(tail, tail[shift:]): source and target overlap, so the copy runs upwards. */
    method Compact()
      requires Valid() && len > TAIL_WINDOW
      modifies this`len, buf
      ensures Valid() && buf[..len] == LastN(old(buf[..len]), TAIL_WINDOW)
      ensures token == old(token) && buf == old(buf)
    {
      var shift := len - TAIL_WINDOW;
      for i := 0 to TAIL_WINDOW
        invariant forall j :: 0 <= j < i ==> buf[j] == old(buf[j + shift])
        invariant forall j :: i <= j < buf.Length ==> buf[j] == old(buf[j])
      {
        buf[i] := buf[i + shift];
      }
      len := TAIL_WINDOW;
      assert buf[..len] == old(buf[..len])[shift..];
    }

    method Write(p: seq<byte>) returns (n: nat)
      requires Valid()
      modifies this, buf
      ensures Valid() && (buf == old(buf) || fresh(buf))
      ensures State() == Absorb(old(State()), p) && n == |p|
    {
      Append(p);
      var tail := buf[..len];
      var matches := FindAll(tail, 0);
      if |matches| > 0 {
        token := Text(tail, matches[|matches| - 1]);
      }
      if len > TAIL_WINDOW {
        Compact();
      }
      return |p|;
    }

    method Token() returns (t: seq<byte>, ok: bool)
      requires Valid()
      ensures t == State().token && (ok <==> t != [])
    {
      return token, token != [];
    }
  }

  /** Writing the chunks of a stable stream yields its last match; `ok` says there is one. */
  method Extract(chunks: seq<seq<byte>>) returns (token: seq<byte>, ok: bool)
    ensures token == Feed(chunks).token
    ensures Stable(Concat(chunks)) ==> token == LastToken(Concat(chunks)) && (ok <==> FindAll(Concat(chunks), 0) != [])
  {
    var e := new Extractor();
    for i := 0 to |chunks|
      invariant e.Valid() && fresh(e) && fresh(e.buf)
      invariant e.State() == Feed(chunks[..i])
    {
      OneMore(chunks[..i], chunks[i]);
      assert chunks[..i + 1] == chunks[..i] + [chunks[i]];
      var n := e.Write(chunks[i]);
    }
    assert chunks[..|chunks|] == chunks;
    token, ok := e.Token();
    if Stable(Concat(chunks)) {
      StableSuffices(Concat(chunks), chunks);
      TokenNotEmpty(Concat(chunks));
    }
  }

  lemma TokenNotEmpty(z: seq<byte>)
    ensures LastToken(z) != [] <==> FindAll(z, 0) != []
  {
    if FindAll(z, 0) != [] {
      var a, e := LastExists(z);
    }
  }
}
