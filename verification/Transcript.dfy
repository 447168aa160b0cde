/**
 Transcripts cut to what fits a relay frame (`cap_transcript` and
 `windowed_transcript` in crates/mcp-server/src/sessions.rs).
 */
module Transcript {
  import opened Wrappers

  const MAX_TRANSCRIPT_MESSAGES: nat := 1000
  const MAX_TRANSCRIPT_BYTES: nat := 700_000

  /** `text` in its bytes. */
  datatype Message = Message(role: string, text: seq<bv8>, ts: Option<nat>)

  /** The wording of the markers, from the counts they name. */
  datatype Wording = Wording(cut: (nat, nat, nat) -> seq<bv8>, window: (nat, nat, nat, nat) -> seq<bv8>)

  function Size(msgs: seq<Message>): nat {
    if msgs == [] then 0 else |msgs[0].text| + Size(msgs[1..])
  }

  function Last(msgs: seq<Message>, k: nat): seq<Message>
    requires k <= |msgs|
  {
    msgs[|msgs| - k..]
  }

  /** The last `k` messages may be shown: not too many, not too long; one alone always may. */
  predicate Fits(msgs: seq<Message>, k: nat)
    requires k <= |msgs|
  {
    k <= MAX_TRANSCRIPT_MESSAGES && (k <= 1 || Size(Last(msgs, k)) <= MAX_TRANSCRIPT_BYTES)
  }

  /** `keep` is the length of the longest suffix that fits. */
  predicate Longest(msgs: seq<Message>, keep: nat) {
    keep <= |msgs| && Fits(msgs, keep) && (keep == |msgs| || !Fits(msgs, keep + 1))
  }

  function CutMarker(kept: nat, total: nat, wording: Wording): Message
    requires kept <= total
  {
    Message("system", wording.cut(kept, total, total - kept), None)
  }

  /** The transcript cut to its last `keep` messages, with a marker if that drops any. */
  function Shown(msgs: seq<Message>, keep: nat, wording: Wording): seq<Message>
    requires keep <= |msgs|
  {
    if keep == |msgs| then msgs else [CutMarker(keep, |msgs|, wording)] + Last(msgs, keep)
  }

  method CapTranscript(msgs: seq<Message>, wording: Wording) returns (out: seq<Message>)
    ensures exists keep :: Longest(msgs, keep) && out == Shown(msgs, keep, wording)
  {
    var bytes, k := 0, 0;
    while k < |msgs|
      invariant 0 <= k <= |msgs| && bytes == Size(Last(msgs, k)) && Fits(msgs, k)
    {
      OneMore(msgs, k);
      var next := bytes + |msgs[|msgs| - 1 - k].text|;
      if k >= MAX_TRANSCRIPT_MESSAGES || (k > 0 && next > MAX_TRANSCRIPT_BYTES) {
        break;
      }
      bytes := next;
      k := k + 1;
    }
    assert Longest(msgs, k);
    if k >= |msgs| {
      return msgs;
    }
    out := [CutMarker(k, |msgs|, wording)] + msgs[|msgs| - k..];
    assert out == Shown(msgs, k, wording);
  }

  lemma OneMore(msgs: seq<Message>, k: nat)
    requires k < |msgs|
    ensures Size(Last(msgs, k + 1)) == |msgs[|msgs| - 1 - k].text| + Size(Last(msgs, k))
  {
    assert Last(msgs, k + 1)[1..] == Last(msgs, k);
  }

  lemma {:induction false} SizeGrows(msgs: seq<Message>, j: nat, k: nat)
    requires j <= k <= |msgs|
    ensures Size(Last(msgs, j)) <= Size(Last(msgs, k))
    decreases k
  {
    if j < k {
      OneMore(msgs, k - 1);
      SizeGrows(msgs, j, k - 1);
    }
  }

  /** The walk stops at the first suffix that does not fit; no longer one fits either, and
      every shorter one does. */
  lemma LongestIsExact(msgs: seq<Message>, keep: nat, j: nat)
    requires Longest(msgs, keep) && j <= |msgs|
    ensures Fits(msgs, j) <==> j <= keep
  {
    if j <= keep {
      SizeGrows(msgs, j, keep);
    } else {
      SizeGrows(msgs, keep + 1, j);
    }
  }

  /** Nothing is lost but from the front, and a message is always shown if there is one. */
  lemma SomethingIsShown(msgs: seq<Message>, keep: nat)
    requires Longest(msgs, keep) && msgs != []
    ensures keep >= 1
  {
    LongestIsExact(msgs, keep, 1);
  }

  /** The bytes of the messages from the `i`-th on. */
  function BytesFrom(msgs: seq<Message>, i: nat): nat
    requires i <= |msgs|
    decreases |msgs| - i
  {
    if i == |msgs| then 0 else |msgs[i].text| + BytesFrom(msgs, i + 1)
  }

  lemma {:induction false} SizeIsBytes(msgs: seq<Message>, k: nat)
    requires k <= |msgs|
    ensures Size(Last(msgs, k)) == BytesFrom(msgs, |msgs| - k)
  {
    if k > 0 {
      OneMore(msgs, k - 1);
      SizeIsBytes(msgs, k - 1);
    }
  }

  /** What is shown: all messages, or behind a marker that names the counts the last ones, at most
      1000 of 700000 bytes together, or a longer one alone; one more would have been too many. */
  lemma ShownIsTail(msgs: seq<Message>, keep: nat, wording: Wording)
    requires Longest(msgs, keep)
    ensures var out := Shown(msgs, keep, wording);
            if keep == |msgs| then out == msgs
            else |out| == keep + 1 && out[0] == Message("system", wording.cut(keep, |msgs|, |msgs| - keep), None) &&
                 forall i :: 1 <= i < |out| ==> out[i] == msgs[|msgs| - |out| + i]
    ensures keep <= 1000 && (keep <= 1 || BytesFrom(msgs, |msgs| - keep) <= 700_000)
    ensures keep < |msgs| ==> keep == 1000 || (keep >= 1 && BytesFrom(msgs, |msgs| - keep - 1) > 700_000)
  {
    SizeIsBytes(msgs, keep);
    if keep < |msgs| { SizeIsBytes(msgs, keep + 1); }
  }

  // --- the context of a search hit ------------------------------------------------------

  function WindowStart(seqNo: nat, half: nat, total: nat): nat
    requires total > 0
  {
    var center := Center(seqNo, total);
    if center >= half then center - half else 0
  }

  function WindowEnd(seqNo: nat, half: nat, total: nat): nat
    requires total > 0
  {
    var end := Center(seqNo, total) + half + 1;
    if end <= total then end else total
  }

  function Center(seqNo: nat, total: nat): nat
    requires total > 0
  {
    if seqNo <= total - 1 then seqNo else total - 1
  }

  /** The messages around one, behind a marker that names the position. */
  function Window(msgs: seq<Message>, seqNo: nat, half: nat, wording: Wording): seq<Message>
    requires msgs != []
  {
    var start, end := WindowStart(seqNo, half, |msgs|), WindowEnd(seqNo, half, |msgs|);
    [Message("system", wording.window(start, end, |msgs|, Center(seqNo, |msgs|)), None)] + msgs[start..end]
  }

  /** The window around a message, capped like any transcript. */
  method WindowedTranscript(msgs: seq<Message>, seqNo: nat, half: nat, wording: Wording) returns (out: seq<Message>)
    ensures msgs == [] ==> out == []
    ensures msgs != [] ==>
              var window := Window(msgs, seqNo, half, wording);
              exists keep :: Longest(window, keep) && out == Shown(window, keep, wording)
  {
    var total := |msgs|;
    if total == 0 {
      return msgs;
    }
    var center := if seqNo <= total - 1 then seqNo else total - 1;
    var start := if center >= half then center - half else 0;
    var end := if center + half + 1 <= total then center + half + 1 else total;
    var window := [Message("system", wording.window(start, end, total, center), None)] + msgs[start..end];
    assert window == Window(msgs, seqNo, half, wording);
    out := CapTranscript(window, wording);
  }

  predicate Near(k: int, center: int, half: nat) {
    center - half <= k <= center + half
  }

  /** The window holds the messages at most `half` away from the cited one, or from the last if there
      is none of that number; the marker in front names its bounds, the total and that message. */
  lemma WindowIsCentred(msgs: seq<Message>, seqNo: nat, half: nat, wording: Wording)
    requires msgs != []
    ensures var window, center := Window(msgs, seqNo, half, wording), if seqNo < |msgs| then seqNo else |msgs| - 1;
            var start, end := WindowStart(seqNo, half, |msgs|), WindowEnd(seqNo, half, |msgs|);
            start <= center < end <= |msgs| &&
            (forall k :: 0 <= k < |msgs| ==> (start <= k < end <==> Near(k, center, half))) &&
            window != [] && window[0] == Message("system", wording.window(start, end, |msgs|, center), None) &&
            window[1..] == msgs[start..end]
  {
    var window := Window(msgs, seqNo, half, wording);
    assert window[1..] == msgs[WindowStart(seqNo, half, |msgs|)..WindowEnd(seqNo, half, |msgs|)];
  }

  /** The cap keeps the tail, so the cited message is still shown exactly when it fits
      together with what follows it in the window. */
  lemma CitedIsShownExactlyWhen(msgs: seq<Message>, seqNo: nat, half: nat, wording: Wording, keep: nat)
    requires msgs != [] && Longest(Window(msgs, seqNo, half, wording), keep)
    ensures var center, end := Center(seqNo, |msgs|), WindowEnd(seqNo, half, |msgs|);
            var tail, out := end - center, Shown(Window(msgs, seqNo, half, wording), keep, wording);
            1 <= tail && (keep >= tail <==> Fits(msgs[center..end], tail)) &&
            (keep >= tail ==> |out| >= tail && Last(out, tail) == msgs[center..end])
  {
    var window := Window(msgs, seqNo, half, wording);
    var out := Shown(window, keep, wording);
    var start, center, end := WindowStart(seqNo, half, |msgs|), Center(seqNo, |msgs|), WindowEnd(seqNo, half, |msgs|);
    var tail := end - center;
    TailOfWindow(window[0], msgs, start, center, end);
    LongestIsExact(window, keep, tail);
    SameFit(window, msgs[center..end], tail);
    if keep >= tail && keep < |window| {
      LastOfCut(out[0], window, keep, tail);
    }
  }

  lemma TailOfWindow(marker: Message, msgs: seq<Message>, start: nat, center: nat, end: nat)
    requires start <= center < end <= |msgs|
    ensures Last([marker] + msgs[start..end], end - center) == msgs[center..end]
  {
    var window := [marker] + msgs[start..end];
    forall i | 0 <= i < end - center ensures Last(window, end - center)[i] == msgs[center..end][i] {}
  }

  lemma SameFit(window: seq<Message>, tail: seq<Message>, k: nat)
    requires k <= |window| && k == |tail| && Last(window, k) == tail
    ensures Fits(window, k) <==> Fits(tail, k)
  {
    assert Last(tail, k) == tail;
  }

  lemma LastOfCut(marker: Message, window: seq<Message>, keep: nat, tail: nat)
    requires tail <= keep <= |window|
    ensures Last([marker] + Last(window, keep), tail) == Last(window, tail)
  {}

  function Pair(): seq<Message> {
    [Message("user", [1], None), Message("assistant", seq(MAX_TRANSCRIPT_BYTES, i => 0), None)]
  }

  /** It need not: cited beside a message that fills the cap, the first of two is cut away. */
  lemma CitedCanBeCutAway(wording: Wording)
    ensures var window := Window(Pair(), 0, 1, wording);
            Longest(window, 1) && Shown(window, 1, wording) == [CutMarker(1, 3, wording), Pair()[1]] &&
            Pair()[0] !in Shown(window, 1, wording)
  {
    var msgs, window := Pair(), Window(Pair(), 0, 1, wording);
    assert msgs[0..2] == msgs && |window| == 3;
    assert Last(window, 1) == [msgs[1]] && Last(window, 2) == msgs;
    assert msgs[1..] == [msgs[1]] && [msgs[1]][1..] == [];
    assert Size(msgs) == 1 + Size([msgs[1]]);
  }
}
