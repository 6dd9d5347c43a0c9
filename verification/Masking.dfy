/** Merging the spans that detectors claim, and masking exactly the merged text. */
module Masking {
  import opened Domain
  import opened Sorting

  predicate SpanLeq(a: MaskSpan, b: MaskSpan) {
    a.start < b.start || (a.start == b.start && a.end <= b.end)
  }

  ghost predicate Covers(spans: seq<MaskSpan>, p: int) {
    exists i :: 0 <= i < |spans| && spans[i].start <= p < spans[i].end
  }

  ghost predicate Proper(spans: seq<MaskSpan>) {
    forall i :: 0 <= i < |spans| ==> spans[i].start <= spans[i].end
  }

  /** In order and without overlap. */
  ghost predicate Separate(spans: seq<MaskSpan>) {
    Proper(spans) && forall i, j :: 0 <= i < j < |spans| ==> spans[i].end <= spans[j].start
  }

  /** Two spans that share text; an empty one lies strictly inside the other. */
  predicate Touches(s: MaskSpan, o: MaskSpan) {
    s.start < o.end && o.start < s.end
  }

  predicate Empty(s: MaskSpan) {
    s.start == s.end
  }

  /** The label a merged span deserves: that of the first named member, if there is one. */
  function Label(sorted: seq<MaskSpan>, o: MaskSpan): Detector {
    if sorted == [] then HighEntropy
    else
      var before, last := Label(sorted[..|sorted| - 1], o), sorted[|sorted| - 1];
      if before.Named? || !Touches(last, o) then before else last.detector
  }

  /** A merged span is called high-entropy only if every span in it is. */
  lemma {:induction false} NamedWins(sorted: seq<MaskSpan>, o: MaskSpan)
    ensures Label(sorted, o) == HighEntropy <==>
            forall i :: 0 <= i < |sorted| && Touches(sorted[i], o) ==> sorted[i].detector == HighEntropy
    ensures Label(sorted, o).Named? ==>
            exists i :: 0 <= i < |sorted| && Touches(sorted[i], o) && sorted[i].detector == Label(sorted, o)
  {
    if sorted != [] {
      var init := sorted[..|sorted| - 1];
      NamedWins(init, o);
      assert forall i :: 0 <= i < |init| ==> init[i] == sorted[i];
    }
  }

  ghost predicate LabelsFit(sorted: seq<MaskSpan>, out: seq<MaskSpan>) {
    forall i :: 0 <= i < |out| && !Empty(out[i]) ==> out[i].detector == Label(sorted, out[i])
  }

  /** An empty span survives only as it was, outside all others. */
  ghost predicate EmptiesFit(sorted: seq<MaskSpan>, out: seq<MaskSpan>) {
    forall i :: 0 <= i < |out| && Empty(out[i]) ==> out[i] in sorted
  }

  ghost predicate SameCover(a: seq<MaskSpan>, b: seq<MaskSpan>) {
    forall p :: Covers(a, p) <==> Covers(b, p)
  }

  ghost predicate LiesWithin(s: MaskSpan, out: seq<MaskSpan>) {
    exists o :: o in out && o.start <= s.start && s.end <= o.end
  }

  /** No span is torn apart: each lies within one merged span. */
  ghost predicate KeptWhole(sorted: seq<MaskSpan>, out: seq<MaskSpan>) {
    forall s :: s in sorted ==> LiesWithin(s, out)
  }

  ghost predicate CutsOne(p: int, spans: seq<MaskSpan>) {
    exists s :: s in spans && s.start < p < s.end
  }

  /** Nothing is merged without need: a cut through a merged span cuts one of its members. */
  ghost predicate HoldsTogether(sorted: seq<MaskSpan>, out: seq<MaskSpan>) {
    forall o, p :: o in out && o.start < p < o.end ==> CutsOne(p, sorted)
  }

  /** `out` is what merging the sorted spans should give. */
  ghost predicate Merged(sorted: seq<MaskSpan>, out: seq<MaskSpan>) {
    && Separate(out) && SameCover(out, sorted) && LabelsFit(sorted, out) && EmptiesFit(sorted, out)
    && KeptWhole(sorted, out) && HoldsTogether(sorted, out)
  }

  /** The last merged span starts where one of its members does and reaches as far as any. */
  ghost predicate Frontier(sorted: seq<MaskSpan>, out: seq<MaskSpan>) {
    && (out == [] <==> sorted == [])
    && (out != [] ==>
          var last := out[|out| - 1];
          && last.start <= sorted[|sorted| - 1].start
          && (forall i :: 0 <= i < |sorted| ==> sorted[i].end <= last.end)
          && exists i :: 0 <= i < |sorted| && sorted[i].start == last.start && (Empty(last) || !Empty(sorted[i])))
  }

  // ---- one span at a time --------------------------------------------------------------------

  function Joined(last: MaskSpan, s: MaskSpan): MaskSpan {
    MaskSpan(last.start, if last.end > s.end then last.end else s.end,
             if last.detector.Named? then last.detector else s.detector)
  }

  ghost predicate InOrder(sorted: seq<MaskSpan>, s: MaskSpan) {
    Proper(sorted + [s]) && forall i :: 0 <= i < |sorted| ==> SpanLeq(sorted[i], s)
  }

  lemma LabelAppend(sorted: seq<MaskSpan>, s: MaskSpan, o: MaskSpan)
    ensures Label(sorted + [s], o) ==
            if Label(sorted, o).Named? || !Touches(s, o) then Label(sorted, o) else s.detector
  {
    assert (sorted + [s])[..|sorted|] == sorted;
  }

  lemma CoverAppend(spans: seq<MaskSpan>, s: MaskSpan, p: int)
    ensures Covers(spans + [s], p) <==> Covers(spans, p) || s.start <= p < s.end
  {
    assert forall i :: 0 <= i < |spans| ==> (spans + [s])[i] == spans[i];
    assert (spans + [s])[|spans|] == s;
  }

  lemma {:induction false} Untouched(sorted: seq<MaskSpan>, o: MaskSpan)
    requires forall i :: 0 <= i < |sorted| ==> !Touches(sorted[i], o)
    ensures Label(sorted, o) == HighEntropy
  {
    NamedWins(sorted, o);
  }

  lemma {:induction false} LabelAgrees(sorted: seq<MaskSpan>, o: MaskSpan, p: MaskSpan)
    requires forall i :: 0 <= i < |sorted| ==> (Touches(sorted[i], o) <==> Touches(sorted[i], p))
    ensures Label(sorted, o) == Label(sorted, p)
  {
    if sorted != [] {
      LabelAgrees(sorted[..|sorted| - 1], o, p);
    }
  }

  /** Nothing so far reaches into s: it starts a merged span of its own. */
  lemma PushKeeps(sorted: seq<MaskSpan>, out: seq<MaskSpan>, s: MaskSpan)
    requires Merged(sorted, out) && Frontier(sorted, out) && InOrder(sorted, s)
    requires out != [] ==> out[|out| - 1].end <= s.start
    ensures Merged(sorted + [s], out + [s]) && Frontier(sorted + [s], out + [s])
  {
    assert s.start <= s.end by {
      assert (sorted + [s])[|sorted|] == s;
    }
    PushSeparates(out, s);
    forall p
      ensures Covers(out + [s], p) <==> Covers(sorted + [s], p)
    {
      CoverAppend(out, s, p);
      CoverAppend(sorted, s, p);
    }
    PushLabels(sorted, out, s);
    PushPieces(sorted, out, s);
    assert (sorted + [s])[|sorted|] == s;
  }

  lemma PushPieces(sorted: seq<MaskSpan>, out: seq<MaskSpan>, s: MaskSpan)
    requires KeptWhole(sorted, out) && HoldsTogether(sorted, out)
    ensures KeptWhole(sorted + [s], out + [s]) && HoldsTogether(sorted + [s], out + [s])
  {
    forall t | t in sorted + [s]
      ensures LiesWithin(t, out + [s])
    {
      if t in sorted {
        var o :| o in out && o.start <= t.start && t.end <= o.end;
        assert o in out + [s];
      } else {
        assert s in out + [s];
      }
    }
    forall o, p | o in out + [s] && o.start < p < o.end
      ensures CutsOne(p, sorted + [s])
    {
      CutAppend(p, sorted, s);
    }
  }

  lemma CutAppend(p: int, sorted: seq<MaskSpan>, s: MaskSpan)
    ensures CutsOne(p, sorted + [s]) <==> CutsOne(p, sorted) || s.start < p < s.end
  {
    assert s in sorted + [s];
    assert forall t :: t in sorted + [s] <==> t in sorted || t == s;
  }

  lemma PushSeparates(out: seq<MaskSpan>, s: MaskSpan)
    requires Separate(out) && s.start <= s.end && (out != [] ==> out[|out| - 1].end <= s.start)
    ensures Separate(out + [s])
  {
    forall i | 0 <= i < |out|
      ensures out[i].end <= s.start
    {
      assert i < |out| - 1 ==> out[i].end <= out[|out| - 1].start;
    }
  }

  lemma PushLabels(sorted: seq<MaskSpan>, out: seq<MaskSpan>, s: MaskSpan)
    requires LabelsFit(sorted, out) && Separate(out + [s]) && Frontier(sorted, out)
    requires out != [] ==> out[|out| - 1].end <= s.start
    ensures LabelsFit(sorted + [s], out + [s])
  {
    hide Label;
    var next := out + [s];
    assert next[|out|] == s;
    forall i | 0 <= i < |next| && !Empty(next[i])
      ensures next[i].detector == Label(sorted + [s], next[i])
    {
      LabelAppend(sorted, s, next[i]);
      if i < |out| {
        assert next[i] == out[i] && next[i].end <= next[|out|].start;
      } else {
        FrontierAhead(sorted, out, s);
        Untouched(sorted, s);
      }
    }
  }

  lemma FrontierAhead(sorted: seq<MaskSpan>, out: seq<MaskSpan>, s: MaskSpan)
    requires Frontier(sorted, out) && (out != [] ==> out[|out| - 1].end <= s.start)
    ensures forall i :: 0 <= i < |sorted| ==> !Touches(sorted[i], s)
  {
  }

  /** s starts inside the last merged span: it is absorbed. */
  lemma JoinKeeps(sorted: seq<MaskSpan>, out: seq<MaskSpan>, s: MaskSpan)
    requires Merged(sorted, out) && Frontier(sorted, out) && InOrder(sorted, s)
    requires out != [] && s.start < out[|out| - 1].end
    ensures Merged(sorted + [s], out[|out| - 1 := Joined(out[|out| - 1], s)])
    ensures Frontier(sorted + [s], out[|out| - 1 := Joined(out[|out| - 1], s)])
  {
    var init, last := out[..|out| - 1], out[|out| - 1];
    var joined := Joined(last, s);
    var next := out[|out| - 1 := joined];
    assert next == init + [joined] && out == init + [last];
    assert s.start <= s.end by {
      assert (sorted + [s])[|sorted|] == s;
    }
    assert last.start <= s.start by {
      assert SpanLeq(sorted[|sorted| - 1], s);
    }
    forall p
      ensures Covers(next, p) <==> Covers(sorted + [s], p)
    {
      CoverAppend(init, joined, p);
      CoverAppend(init, last, p);
      CoverAppend(sorted, s, p);
    }
    JoinLabels(sorted, out, s);
    JoinPieces(sorted, init, last, s);
    JoinFrontier(sorted, out, s);
  }

  lemma JoinPieces(sorted: seq<MaskSpan>, init: seq<MaskSpan>, last: MaskSpan, s: MaskSpan)
    requires KeptWhole(sorted, init + [last]) && HoldsTogether(sorted, init + [last])
    requires last.start <= s.start < last.end
    ensures KeptWhole(sorted + [s], init + [Joined(last, s)])
    ensures HoldsTogether(sorted + [s], init + [Joined(last, s)])
  {
    var joined := Joined(last, s);
    assert joined in init + [joined] && last in init + [last];
    forall t | t in sorted + [s]
      ensures LiesWithin(t, init + [joined])
    {
      if t in sorted {
        var o :| o in init + [last] && o.start <= t.start && t.end <= o.end;
        assert o in init ==> o in init + [joined];
      }
    }
    forall o, p | o in init + [joined] && o.start < p < o.end
      ensures CutsOne(p, sorted + [s])
    {
      CutAppend(p, sorted, s);
      assert o in init ==> o in init + [last];
    }
  }

  lemma JoinFrontier(sorted: seq<MaskSpan>, out: seq<MaskSpan>, s: MaskSpan)
    requires Frontier(sorted, out) && out != [] && InOrder(sorted, s) && s.start < out[|out| - 1].end
    ensures Frontier(sorted + [s], out[|out| - 1 := Joined(out[|out| - 1], s)])
  {
    var last := out[|out| - 1];
    assert SpanLeq(sorted[|sorted| - 1], s);
    var i :| 0 <= i < |sorted| && sorted[i].start == last.start && (Empty(last) || !Empty(sorted[i]));
    assert (sorted + [s])[i] == sorted[i];
  }

  /** In sorted order an absorbed span shares text with the span that absorbs it. */
  lemma AbsorbedTouches(sorted: seq<MaskSpan>, out: seq<MaskSpan>, s: MaskSpan)
    requires Frontier(sorted, out) && out != [] && InOrder(sorted, s) && s.start < out[|out| - 1].end
    ensures Touches(s, Joined(out[|out| - 1], s))
  {
    var last := out[|out| - 1];
    assert SpanLeq(sorted[|sorted| - 1], s);
    var i :| 0 <= i < |sorted| && sorted[i].start == last.start && (Empty(last) || !Empty(sorted[i]));
    assert SpanLeq(sorted[i], s) && (sorted + [s])[i] == sorted[i] && (sorted + [s])[|sorted|] == s;
  }

  lemma JoinLabels(sorted: seq<MaskSpan>, out: seq<MaskSpan>, s: MaskSpan)
    requires Merged(sorted, out) && Frontier(sorted, out) && InOrder(sorted, s)
    requires out != [] && s.start < out[|out| - 1].end
    ensures LabelsFit(sorted + [s], out[|out| - 1 := Joined(out[|out| - 1], s)])
  {
    var last := out[|out| - 1];
    var joined := Joined(last, s);
    assert SpanLeq(sorted[|sorted| - 1], s);
    AbsorbedTouches(sorted, out, s);
    forall i | 0 <= i < |sorted|
      ensures Touches(sorted[i], joined) <==> Touches(sorted[i], last)
    {
      assert SpanLeq(sorted[i], s);
    }
    LabelAgrees(sorted, joined, last);
    LabelAppend(sorted, s, joined);
    forall i | 0 <= i < |out| - 1 && !Empty(out[i])
      ensures out[i].detector == Label(sorted + [s], out[i])
    {
      LabelAppend(sorted, s, out[i]);
      assert out[i].end <= last.start;
    }
  }

  // ---- merging and masking -------------------------------------------------------------------

  lemma SpansAreOrdered()
    ensures TotalPreorder(SpanLeq)
  {
  }

  lemma SortedPrefix(sorted: seq<MaskSpan>, k: nat)
    requires k < |sorted| && SortedBy(sorted, SpanLeq) && Proper(sorted)
    ensures InOrder(sorted[..k], sorted[k]) && sorted[..k] + [sorted[k]] == sorted[..k + 1]
  {
    assert sorted[..k] + [sorted[k]] == sorted[..k + 1];
    forall i | 0 <= i < k
      ensures SpanLeq(sorted[..k][i], sorted[k])
    {
      assert sorted[..k][i] == sorted[i];
    }
  }

  /** Covering does not depend on the order of the spans. */
  lemma CoverPermutes(a: seq<MaskSpan>, b: seq<MaskSpan>)
    requires multiset(a) == multiset(b)
    ensures SameCover(a, b) && (Proper(a) ==> Proper(b))
  {
    assert forall s :: s in a <==> s in multiset(a);
    assert forall s :: s in b <==> s in multiset(b);
    forall p
      ensures Covers(a, p) <==> Covers(b, p)
    {
      assert Covers(a, p) <==> exists s :: s in a && s.start <= p < s.end;
      assert Covers(b, p) <==> exists s :: s in b && s.start <= p < s.end;
    }
    if Proper(a) {
      forall i | 0 <= i < |b|
        ensures b[i].start <= b[i].end
      {
        assert b[i] in multiset(b) && b[i] in a;
      }
    }
  }

  /**
   * The merged spans are in order and disjoint, cover exactly what the given spans cover, tear none
   * of them apart, join none without need, and carry the first named label among their members.
   */
  method MergeSpans(spans: seq<MaskSpan>) returns (out: seq<MaskSpan>)
    requires Proper(spans)
    ensures Merged(Sort(spans, SpanLeq), out)
    ensures SameCover(out, spans)
  {
    var sorted := Sort(spans, SpanLeq);
    SpansAreOrdered();
    SortSorted(spans, SpanLeq);
    SortPermutes(spans, SpanLeq);
    CoverPermutes(spans, sorted);
    out := [];
    hide Merged, Frontier, InOrder, SameCover, TotalPreorder, Sort;
    StartMerging();
    for k := 0 to |sorted|
      invariant Merged(sorted[..k], out) && Frontier(sorted[..k], out)
    {
      var s := sorted[k];
      SortedPrefix(sorted, k);
      if out != [] && s.start < out[|out| - 1].end {
        JoinKeeps(sorted[..k], out, s);
        var last := out[|out| - 1];
        out := out[|out| - 1 := MaskSpan(last.start, if last.end > s.end then last.end else s.end,
                                         if last.detector != HighEntropy then last.detector else s.detector)];
      } else {
        PushKeeps(sorted[..k], out, s);
        out := out + [s];
      }
    }
    assert sorted[..|sorted|] == sorted;
    CoverTransfers(spans, sorted, out);
  }

  lemma StartMerging()
    ensures Merged([], []) && Frontier([], [])
  {
  }

  lemma CoverTransfers(spans: seq<MaskSpan>, sorted: seq<MaskSpan>, out: seq<MaskSpan>)
    requires SameCover(spans, sorted) && Merged(sorted, out)
    ensures SameCover(out, spans)
  {
  }

  const MASK_BULLET: char := '\U{2022}'

  /** At least twelve characters: the first and last four remain. Otherwise nothing does. */
  function MaskToken(raw: string): string {
    if |raw| >= 12
    then raw[..4] + seq(4, _ => MASK_BULLET) + raw[|raw| - 4..]
    else seq(8, _ => MASK_BULLET)
  }

  /** What a token gives away: nothing of a short secret, not even its length, else eight characters. */
  lemma TokenReveals(a: string, b: string)
    ensures MaskToken(a) == MaskToken(b) <==>
            (|a| < 12 && |b| < 12) || (|a| >= 12 && |b| >= 12 && a[..4] == b[..4] && a[|a| - 4..] == b[|b| - 4..])
  {
    if |a| >= 12 && |b| >= 12 {
      assert MaskToken(a)[..4] == a[..4] && MaskToken(b)[..4] == b[..4];
      assert MaskToken(a)[8..] == a[|a| - 4..] && MaskToken(b)[8..] == b[|b| - 4..];
    }
  }

  /** Gaps and fillings in turn: gap, filling, gap, ..., gap. */
  function Weave(gaps: seq<string>, fillings: seq<string>): string
    requires |gaps| == |fillings| + 1
  {
    if fillings == [] then gaps[0]
    else Weave(gaps[..|gaps| - 1], fillings[..|fillings| - 1]) + fillings[|fillings| - 1] + gaps[|gaps| - 1]
  }

  function Secrets(text: string, spans: seq<MaskSpan>): seq<string>
    requires forall i :: 0 <= i < |spans| ==> 0 <= spans[i].start <= spans[i].end <= |text|
  {
    seq(|spans|, i requires 0 <= i < |spans| => text[spans[i].start..spans[i].end])
  }

  /** The text before, between and after the spans. */
  function Gaps(text: string, spans: seq<MaskSpan>): seq<string>
    requires Within(text, spans) && Separate(spans)
  {
    seq(|spans| + 1, i requires 0 <= i <= |spans| => Gap(text, spans, i))
  }

  function Gap(text: string, spans: seq<MaskSpan>, i: nat): string
    requires Within(text, spans) && Separate(spans) && i <= |spans|
  {
    text[if i == 0 then 0 else spans[i - 1].end..if i == |spans| then |text| else spans[i].start]
  }

  function Tokens(secrets: seq<string>): seq<string> {
    seq(|secrets|, i requires 0 <= i < |secrets| => MaskToken(secrets[i]))
  }

  ghost predicate Within(text: string, spans: seq<MaskSpan>) {
    forall i :: 0 <= i < |spans| ==> 0 <= spans[i].start <= spans[i].end <= |text|
  }

  lemma WeaveAppend(gaps: seq<string>, fillings: seq<string>, filling: string, gap: string)
    requires |gaps| == |fillings| + 1
    ensures Weave(gaps + [gap], fillings + [filling]) == Weave(gaps, fillings) + filling + gap
  {
    assert (gaps + [gap])[..|gaps|] == gaps && (fillings + [filling])[..|fillings|] == fillings;
  }

  /** The last gap grows. */
  lemma WeaveGrow(gaps: seq<string>, fillings: seq<string>, more: string)
    requires |gaps| == |fillings| + 1
    ensures Weave(gaps[|gaps| - 1 := gaps[|gaps| - 1] + more], fillings) == Weave(gaps, fillings) + more
  {
    var next := gaps[|gaps| - 1 := gaps[|gaps| - 1] + more];
    assert next[..|gaps| - 1] == gaps[..|gaps| - 1];
  }

  /** The masking so far: `gaps` end at the cursor. */
  ghost predicate MaskedUpTo(
      text: string, spans: seq<MaskSpan>, k: nat, cursor: int, gaps: seq<string>, preview: string)
  {
    && k <= |spans| && Within(text, spans) && Separate(spans) && |gaps| == k + 1
    && cursor == (if k == 0 then 0 else spans[k - 1].end)
    && gaps[k] == "" && (forall i :: 0 <= i < k ==> gaps[i] == Gap(text, spans, i))
    && Woven(gaps, Secrets(text, spans[..k]), text[..cursor], preview)
  }

  /** The same gaps make the text out of the secrets and the preview out of their tokens. */
  ghost predicate Woven(gaps: seq<string>, secrets: seq<string>, text: string, preview: string) {
    |gaps| == |secrets| + 1 && Weave(gaps, secrets) == text && Weave(gaps, Tokens(secrets)) == preview
  }

  lemma WeaveOne(gaps: seq<string>, secrets: seq<string>, text: string, preview: string, gap: string, secret: string)
    requires Woven(gaps, secrets, text, preview)
    ensures Woven(gaps[|secrets| := gaps[|secrets|] + gap] + [""], secrets + [secret],
                  text + gap + secret, preview + gap + MaskToken(secret))
  {
    var grown := gaps[|secrets| := gaps[|secrets|] + gap];
    assert Tokens(secrets + [secret]) == Tokens(secrets) + [MaskToken(secret)];
    WeaveGrow(gaps, secrets, gap);
    WeaveGrow(gaps, Tokens(secrets), gap);
    WeaveAppend(grown, secrets, secret, "");
    WeaveAppend(grown, Tokens(secrets), MaskToken(secret), "");
    assert text + gap + secret + "" == text + gap + secret;
    assert preview + gap + MaskToken(secret) + "" == preview + gap + MaskToken(secret);
  }

  lemma SecretsNext(text: string, spans: seq<MaskSpan>, k: nat)
    requires Within(text, spans) && k < |spans|
    ensures Secrets(text, spans[..k + 1]) == Secrets(text, spans[..k]) + [text[spans[k].start..spans[k].end]]
  {
  }

  lemma MaskOne(text: string, spans: seq<MaskSpan>, k: nat, cursor: int, gaps: seq<string>, preview: string)
    requires MaskedUpTo(text, spans, k, cursor, gaps, preview) && k < |spans|
    ensures 0 <= cursor <= spans[k].start
    ensures MaskedUpTo(text, spans, k + 1, spans[k].end, gaps[k := gaps[k] + text[cursor..spans[k].start]] + [""],
                       preview + text[cursor..spans[k].start] + MaskToken(text[spans[k].start..spans[k].end]))
  {
    var s := spans[k];
    assert k > 0 ==> spans[k - 1].end <= s.start;
    var gap, secret := text[cursor..s.start], text[s.start..s.end];
    SecretsNext(text, spans, k);
    hide Secrets, MaskToken;
    WeaveOne(gaps, Secrets(text, spans[..k]), text[..cursor], preview, gap, secret);
    hide Woven;
    assert text[..cursor] + gap + secret == text[..s.end];
    assert gaps[k] + gap == gap == Gap(text, spans, k);
  }

  lemma MaskRest(text: string, spans: seq<MaskSpan>, cursor: int, gaps: seq<string>, preview: string)
    requires MaskedUpTo(text, spans, |spans|, cursor, gaps, preview)
    ensures Weave(Gaps(text, spans), Secrets(text, spans)) == text
    ensures Weave(Gaps(text, spans), Tokens(Secrets(text, spans))) == preview + text[cursor..]
  {
    var secrets := Secrets(text, spans[..|spans|]);
    WeaveGrow(gaps, secrets, text[cursor..]);
    WeaveGrow(gaps, Tokens(secrets), text[cursor..]);
    assert text[..cursor] + text[cursor..] == text && spans[..|spans|] == spans;
    assert text[cursor..|text|] == text[cursor..] && "" + text[cursor..] == text[cursor..];
    assert gaps[|spans| := gaps[|spans|] + text[cursor..]] == Gaps(text, spans);
  }

  /**
   * The text is gaps woven with the spans' text; the preview is the same gaps woven with the
   * tokens. So everything outside the spans is copied verbatim and in order.
   */
  method MaskWith(text: string, spans: seq<MaskSpan>) returns (preview: string)
    requires Within(text, spans) && Separate(spans)
    ensures text == Weave(Gaps(text, spans), Secrets(text, spans))
    ensures preview == Weave(Gaps(text, spans), Tokens(Secrets(text, spans)))
  {
    hide MaskedUpTo;
    preview := "";
    var cursor := 0;
    ghost var gaps := [""];
    StartMasking(text, spans);
    for k := 0 to |spans|
      invariant |gaps| == k + 1 && 0 <= cursor <= |text|
      invariant MaskedUpTo(text, spans, k, cursor, gaps, preview)
    {
      MaskOne(text, spans, k, cursor, gaps, preview);
      var s := spans[k];
      gaps := gaps[k := gaps[k] + text[cursor..s.start]] + [""];
      preview := preview + text[cursor..s.start] + MaskToken(text[s.start..s.end]);
      cursor := s.end;
    }
    MaskRest(text, spans, cursor, gaps, preview);
    preview := preview + text[cursor..];
  }

  lemma StartMasking(text: string, spans: seq<MaskSpan>)
    requires Within(text, spans) && Separate(spans)
    ensures MaskedUpTo(text, spans, 0, 0, [""], "")
  {
    assert text[..0] == "";
  }

  lemma MergedWithin(text: string, found: seq<MaskSpan>, out: seq<MaskSpan>)
    requires Within(text, found) && Merged(Sort(found, SpanLeq), out)
    ensures Within(text, out)
  {
    var sorted := Sort(found, SpanLeq);
    SortPermutes(found, SpanLeq);
    CoverPermutes(found, sorted);
    forall i | 0 <= i < |out|
      ensures 0 <= out[i].start <= out[i].end <= |text|
    {
      if Empty(out[i]) {
        assert out[i] in sorted && out[i] in multiset(sorted);
      } else {
        assert Covers(out, out[i].start) && Covers(out, out[i].end - 1);
        assert Covers(found, out[i].start) && Covers(found, out[i].end - 1);
      }
    }
  }

  /** Masks whatever the detectors found in the text: exactly what they cover, and nothing else. */
  method Mask(text: string, found: seq<MaskSpan>) returns (preview: string, spans: seq<MaskSpan>)
    requires Within(text, found)
    ensures Merged(Sort(found, SpanLeq), spans) && SameCover(spans, found) && Within(text, spans)
    ensures text == Weave(Gaps(text, spans), Secrets(text, spans))
    ensures preview == Weave(Gaps(text, spans), Tokens(Secrets(text, spans)))
  {
    spans := MergeSpans(found);
    MergedWithin(text, found, spans);
    preview := MaskWith(text, spans);
  }
}
