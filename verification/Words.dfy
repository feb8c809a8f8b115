/** Splitting a scope string into words, joining words again, and trimming. */
module Words {

  /** The Unicode white space characters. */
  predicate IsSpace(c: char) {
    var n := c as int;
    || 0x09 <= n <= 0x0D || n == 0x20 || n == 0x85 || n == 0xA0
    || n == 0x1680 || 0x2000 <= n <= 0x200A || n == 0x2028 || n == 0x2029
    || n == 0x202F || n == 0x205F || n == 0x3000
  }

  predicate NoSpace(s: string) {
    forall i | 0 <= i < |s| :: !IsSpace(s[i])
  }

  /** A word is a non-empty run of characters that are not white space. */
  predicate IsWord(s: string) {
    s != [] && NoSpace(s)
  }

  predicate AllWords(ws: seq<string>) {
    forall i | 0 <= i < |ws| :: IsWord(ws[i])
  }

  /** Length of the longest prefix without white space. */
  function WordLength(s: string): (n: nat)
    ensures n <= |s| && NoSpace(s[..n])
    ensures n < |s| ==> IsSpace(s[n])
  {
    if s == [] || IsSpace(s[0]) then 0 else
      var n := WordLength(s[1..]);
      assert s[..n + 1] == [s[0]] + s[1..][..n];
      n + 1
  }

  /** The words of `s`, split around runs of white space. */
  function Fields(s: string): (ws: seq<string>)
    ensures AllWords(ws)
    decreases |s|
  {
    if s == [] then []
    else if IsSpace(s[0]) then Fields(s[1..])
    else [s[..WordLength(s)]] + Fields(s[WordLength(s)..])
  }

  /** The words separated by single spaces. */
  function Join(ws: seq<string>): string {
    if ws == [] then ""
    else if |ws| == 1 then ws[0]
    else ws[0] + " " + Join(ws[1..])
  }

  lemma {:induction false} WordLengthIsExact(w: string, rest: string)
    requires NoSpace(w) && (rest == [] || IsSpace(rest[0]))
    ensures WordLength(w + rest) == |w|
  {
    if w == [] {
      assert w + rest == rest;
    } else {
      assert (w + rest)[1..] == w[1..] + rest;
      WordLengthIsExact(w[1..], rest);
    }
  }

  /** Joining words with single spaces and splitting the result gives the words back. */
  lemma {:induction false} FieldsOfJoin(ws: seq<string>)
    requires AllWords(ws)
    ensures Fields(Join(ws)) == ws
  {
    if |ws| == 1 {
      WordLengthIsExact(ws[0], []);
      assert ws[0] + [] == ws[0] && ws[0][..|ws[0]|] == ws[0];
    } else if |ws| > 1 {
      var rest := " " + Join(ws[1..]);
      assert Join(ws) == ws[0] + rest;
      WordLengthIsExact(ws[0], rest);
      assert (ws[0] + rest)[..|ws[0]|] == ws[0] && (ws[0] + rest)[|ws[0]|..] == rest;
      assert rest[1..] == Join(ws[1..]);
      FieldsOfJoin(ws[1..]);
    }
  }

  predicate Placed(s: string, w: string, n: nat) {
    n + |w| <= |s| && s[n..n + |w|] == w
  }

  predicate Within(ws: seq<string>, at: seq<nat>, k: int)
    requires |at| == |ws|
  {
    exists i :: 0 <= i < |ws| && at[i] <= k < at[i] + |ws[i]|
  }

  /** The words of `s` stand in it one after the other, `at` says where, and everything around them is white space. */
  predicate WordsAt(s: string, ws: seq<string>, at: seq<nat>) {
    && |at| == |ws|
    && (forall i | 0 <= i < |ws| :: IsWord(ws[i]) && Placed(s, ws[i], at[i]))
    && (forall i, j | 0 <= i < j < |ws| :: at[i] + |ws[i]| < at[j])
    && (forall k | 0 <= k < |s| && !IsSpace(s[k]) :: Within(ws, at, k))
  }

  function Moved(at: seq<nat>, n: nat): (moved: seq<nat>)
    ensures |moved| == |at| && forall i | 0 <= i < |at| :: moved[i] == at[i] + n
  {
    seq(|at|, i requires 0 <= i < |at| => at[i] + n)
  }

  lemma PlacedBehind(p: string, s: string, w: string, n: nat)
    requires Placed(s, w, n)
    ensures Placed(p + s, w, |p| + n)
  {
    assert (p + s)[|p| + n..|p| + n + |w|] == s[n..n + |w|];
  }

  lemma WithinBehind(ws: seq<string>, at: seq<nat>, n: nat, k: int)
    requires |at| == |ws| && Within(ws, at, k)
    ensures Within(ws, Moved(at, n), n + k)
  {
    var i :| 0 <= i < |ws| && at[i] <= k < at[i] + |ws[i]|;
    assert Moved(at, n)[i] <= n + k;
  }

  lemma SpaceBefore(c: char, s: string, ws: seq<string>, at: seq<nat>)
    requires IsSpace(c) && WordsAt(s, ws, at)
    ensures WordsAt([c] + s, ws, Moved(at, 1))
  {
    forall i | 0 <= i < |ws| ensures IsWord(ws[i]) && Placed([c] + s, ws[i], Moved(at, 1)[i]) {
      PlacedBehind([c], s, ws[i], at[i]);
    }
    forall k | 0 <= k < |[c] + s| && !IsSpace(([c] + s)[k]) ensures Within(ws, Moved(at, 1), k) {
      WithinBehind(ws, at, 1, k - 1);
    }
  }

  lemma WithinMore(w: string, ws: seq<string>, at: seq<nat>, k: int)
    requires |at| == |ws| && (0 <= k < |w| || Within(ws, at, k))
    ensures Within([w] + ws, [0] + at, k)
  {
    if 0 <= k < |w| {
      assert ([0] + at)[0] == 0 && ([w] + ws)[0] == w;
    } else {
      var i :| 0 <= i < |ws| && at[i] <= k < at[i] + |ws[i]|;
      assert ([0] + at)[i + 1] == at[i] && ([w] + ws)[i + 1] == ws[i];
    }
  }

  /** Words do not start where white space stands. */
  lemma StartsLater(s: string, w: string, n: nat)
    requires s != [] && IsSpace(s[0]) && IsWord(w) && Placed(s, w, n)
    ensures n > 0
  {
    assert s[n..n + |w|][0] == s[n];
  }

  lemma WordBefore(w: string, rest: string, ws: seq<string>, at: seq<nat>)
    requires IsWord(w) && (rest == [] || IsSpace(rest[0])) && WordsAt(rest, ws, at)
    ensures WordsAt(w + rest, [w] + ws, [0] + Moved(at, |w|))
  {
    var s, ws', at' := w + rest, [w] + ws, [0] + Moved(at, |w|);
    forall i | 0 <= i < |ws'| ensures IsWord(ws'[i]) && Placed(s, ws'[i], at'[i]) && (i > 0 ==> at'[i] > |w|) {
      if i > 0 {
        PlacedBehind(w, rest, ws[i - 1], at[i - 1]);
        StartsLater(rest, ws[i - 1], at[i - 1]);
      }
    }
    forall k | 0 <= k < |s| && !IsSpace(s[k]) ensures Within(ws', at', k) {
      if k >= |w| {
        WithinBehind(ws, at, |w|, k - |w|);
      }
      WithinMore(w, ws, Moved(at, |w|), k);
    }
  }

  /** Splitting finds exactly the words, in order: every character that is not white space lies in one of them. */
  lemma {:induction false} FieldsAreTheWords(s: string) returns (at: seq<nat>)
    ensures WordsAt(s, Fields(s), at)
    decreases |s|
  {
    if s == [] {
      at := [];
    } else if IsSpace(s[0]) {
      at := FieldsAreTheWords(s[1..]);
      SpaceBefore(s[0], s[1..], Fields(s[1..]), at);
      assert [s[0]] + s[1..] == s;
      at := Moved(at, 1);
    } else {
      var n := WordLength(s);
      assert n > 0;
      at := FieldsAreTheWords(s[n..]);
      WordBefore(s[..n], s[n..], Fields(s[n..]), at);
      assert s[..n] + s[n..] == s;
      at := [0] + Moved(at, n);
    }
  }

  predicate Subset(a: seq<string>, b: seq<string>) {
    forall w | w in a :: w in b
  }

  /** The loop the refresh grant runs to decide whether a requested scope stays within the granted one. */
  method CheckSubset(a: seq<string>, b: seq<string>) returns (r: bool)
    ensures r <==> Subset(a, b)
    ensures r <==> forall w | w in a :: w in b
  {
    for i := 0 to |a|
      invariant Subset(a[..i], b)
    {
      if a[i] !in b {
        return false;
      }
    }
    assert a[..|a|] == a;
    return true;
  }

  /** White space removed from both ends. */
  function Trim(s: string): (t: string)
    ensures t == [] || (!IsSpace(t[0]) && !IsSpace(t[|t| - 1]))
    ensures (s == [] || (!IsSpace(s[0]) && !IsSpace(s[|s| - 1]))) ==> t == s
    decreases |s|
  {
    if s == [] then []
    else if IsSpace(s[0]) then Trim(s[1..])
    else if IsSpace(s[|s| - 1]) then Trim(s[..|s| - 1])
    else s
  }

  predicate AllSpace(s: string) {
    forall i | 0 <= i < |s| :: IsSpace(s[i])
  }

  lemma SpaceAroundMore(x: string, before: string, middle: string, after: string, y: string)
    requires AllSpace(x) && AllSpace(before) && AllSpace(after) && AllSpace(y)
    ensures x + (before + middle + after) + y == (x + before) + middle + (after + y)
    ensures AllSpace(x + before) && AllSpace(after + y)
  {
  }

  /** Trimming takes away white space at the two ends and nothing else. */
  lemma {:induction false} TrimKeepsTheMiddle(s: string) returns (before: string, after: string)
    ensures s == before + Trim(s) + after && AllSpace(before) && AllSpace(after)
    decreases |s|
  {
    var n := |s|;
    before, after := [], [];
    if n > 0 && IsSpace(s[0]) {
      before, after := TrimKeepsTheMiddle(s[1..]);
      SpaceAroundMore([s[0]], before, Trim(s[1..]), after, []);
      before, after := [s[0]] + before, after + [];
      assert s == [s[0]] + s[1..] + [];
    } else if n > 0 && IsSpace(s[n - 1]) {
      before, after := TrimKeepsTheMiddle(s[..n - 1]);
      SpaceAroundMore([], before, Trim(s[..n - 1]), after, [s[n - 1]]);
      before, after := [] + before, after + [s[n - 1]];
      assert s == [] + s[..n - 1] + [s[n - 1]];
    }
  }
}
