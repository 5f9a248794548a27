/** The markdown-fence removal that every agent applies, word for word, to the
    stripped text of an oracle reply before parsing it as JSON: when the text
    starts with three backticks, keep the piece between the first and the
    second fence, and drop a leading `json` language tag. */
module Fence {
  import opened Wrappers
  import opened Text

  const Backticks: string := "```"

  /** No backtick anywhere in `s`. */
  predicate TickFree(s: string) {
    forall i :: 0 <= i < |s| ==> s[i] != '`'
  }

  function StripFence(t: string): (r: string)
    ensures !StartsWith(t, Backticks) ==> r == t
  {
    if StartsWith(t, Backticks) then
      // Split's contract guarantees a second piece whenever `t` contains the fence
      var segment := Split(t, Backticks)[1];
      if StartsWith(segment, "json") then segment[4..] else segment
    else t
  }

  /** A string containing `sub` from index `k` on contains `sub`. */
  lemma ContainsFromSuffix(s: string, k: nat, sub: string)
    requires k <= |s| && Contains(s[k..], sub)
    ensures Contains(s, sub)
  {
    ContainsIffOccurs(s[k..], sub);
    ContainsIffOccurs(s, sub);
    var i :| 0 <= i <= |s[k..]| && StartsWith(s[k..][i..], sub);
    assert s[k..][i..] == s[k + i..];
  }

  /** What remains after stripping a fenced reply never contains a fence. */
  lemma {:induction false} StripFenceLeavesNoFence(t: string)
    requires StartsWith(t, Backticks)
    ensures !Contains(StripFence(t), Backticks)
  {
    assert Contains(t, Backticks);
    var parts := Split(t, Backticks);
    SplitPiecesFree(t, Backticks);
    var segment := parts[1];
    assert !Contains(segment, Backticks);
    if StartsWith(segment, "json") {
      if Contains(segment[4..], Backticks) {
        ContainsFromSuffix(segment, 4, Backticks);
      }
    }
  }

  /** The first fence after a backtick-free prefix starts right after it. */
  lemma {:induction false} FindAfterTickFree(a: string, rest: string)
    requires TickFree(a) && StartsWith(rest, Backticks)
    ensures Find(a + rest, Backticks) == Some(|a|)
    decreases |a|
  {
    if |a| == 0 {
      assert a + rest == rest;
    } else {
      assert (a + rest)[0] == a[0];
      assert !StartsWith(a + rest, Backticks);
      assert (a + rest)[1..] == a[1..] + rest;
      FindAfterTickFree(a[1..], rest);
    }
  }

  /** A backtick-free string holds no fence. */
  lemma {:induction false} TickFreeHasNoFence(a: string)
    requires TickFree(a)
    ensures Find(a, Backticks) == None
    decreases |a|
  {
    if |a| > 0 {
      assert |a| >= 3 ==> a[..3][0] == a[0];
      assert !StartsWith(a, Backticks);
      TickFreeHasNoFence(a[1..]);
    }
  }

  /** The piece between an opening fence and the next one is the text in
      between, when that text has no backtick. */
  lemma {:induction false} FencedPiece(piece: string, tail: string)
    requires TickFree(piece)
    ensures StartsWith(Backticks + piece + Backticks + tail, Backticks)
    ensures Split(Backticks + piece + Backticks + tail, Backticks)[1] == piece
  {
    var t := Backticks + piece + Backticks + tail;
    var after := piece + (Backticks + tail);
    assert t == Backticks + after;
    StartsWithConcat(Backticks, after);
    assert Find(t, Backticks) == Some(0);
    FindAfterTickFree(piece, Backticks + tail);
    StartsWithConcat(piece, Backticks + tail);
    assert Split(t, Backticks) == [t[..0]] + Split(after, Backticks);
    assert Split(after, Backticks)[0] == piece;
  }

  /** A reply wrapped as ```json BODY ``` (with anything after the closing
      fence) yields exactly BODY, the same text an unfenced reply would give. */
  lemma FencedJsonYieldsBody(body: string, tail: string)
    requires TickFree(body)
    ensures StripFence(Backticks + "json" + body + Backticks + tail) == body
  {
    var inner := "json" + body;
    assert TickFree(inner);
    assert Backticks + "json" + body + Backticks + tail == Backticks + inner + Backticks + tail;
    FencedPiece(inner, tail);
    StartsWithConcat("json", body);
  }

  /** A reply wrapped as ``` BODY ``` without a language tag yields BODY. */
  lemma FencedPlainYieldsBody(body: string, tail: string)
    requires TickFree(body) && !StartsWith(body, "json")
    ensures StripFence(Backticks + body + Backticks + tail) == body
  {
    FencedPiece(body, tail);
  }

  /** An opening fence that is never closed: everything after it is kept. */
  lemma UnclosedFenceKeepsRest(body: string)
    requires TickFree(body) && !StartsWith(body, "json")
    ensures StripFence(Backticks + body) == body
  {
    var t := Backticks + body;
    assert Find(t, Backticks) == Some(0);
    assert t[3..] == body;
    TickFreeHasNoFence(body);
    assert Split(t, Backticks)[1] == Split(body, Backticks)[0] == body;
  }
}
