/**
 * The emotion vocabulary: how the dominant-emotion labels collected from one
 * frame are lower-cased, counted and folded into the fixed seven-category
 * record (`EduMoodRecognizer.recognize`, the record built when emotions were
 * found).
 */
module Emotions {
  import opened Wrappers

  /** The seven categories, in the order of the record's keys. */
  datatype Emotion = Happy | Sad | Angry | Surprise | Neutral | Disgusted | Fearful

  const ALL_EMOTIONS: seq<Emotion> := [Happy, Sad, Angry, Surprise, Neutral, Disgusted, Fearful]

  /** The record key (and table column) of each category. */
  function Name(e: Emotion): string
  {
    match e
    case Happy => "happy"
    case Sad => "sad"
    case Angry => "angry"
    case Surprise => "surprise"
    case Neutral => "neutral"
    case Disgusted => "disgusted"
    case Fearful => "fearful"
  }

  lemma AllEmotionsListsEachOnce(e: Emotion)
    ensures |ALL_EMOTIONS| == 7
    ensures multiset(ALL_EMOTIONS)[e] == 1
  {
  }

  // ---------------------------------------------------------------------
  // Lower-casing (str.lower restricted to ASCII letters)

  function LowerChar(c: char): char
  {
    if 'A' <= c <= 'Z' then (c as int + 32) as char else c
  }

  const LOWER_LETTERS: string := "abcdefghijklmnopqrstuvwxyz"

  /** ASCII lower-casing: each upper-case letter becomes its own lower-case
      letter, no upper-case letter is left, and every other character is kept
      where it was. */
  function Lower(s: string): (r: string)
    ensures |r| == |s|
    ensures forall i :: 0 <= i < |s| && 'A' <= s[i] <= 'Z' ==> r[i] == LOWER_LETTERS[s[i] as int - 'A' as int]
    ensures forall i :: 0 <= i < |r| ==> !('A' <= r[i] <= 'Z')
    ensures forall i :: 0 <= i < |r| && !('A' <= s[i] <= 'Z') ==> r[i] == s[i]
  {
    seq(|s|, i requires 0 <= i < |s| => LowerChar(s[i]))
  }

  /** Lower-casing every label of a list, as the list comprehension does. */
  function Lowered(labels: seq<string>): (r: seq<string>)
    ensures |r| == |labels|
    ensures forall i :: 0 <= i < |r| ==> IsLower(r[i]) && |r[i]| == |labels[i]|
    ensures forall i :: 0 <= i < |r| && IsLower(labels[i]) ==> r[i] == labels[i]
    ensures forall i :: 0 <= i < |r| ==> r[i] == Lower(labels[i])
  {
    var r := seq(|labels|, i requires 0 <= i < |labels| => Lower(labels[i]));
    LowerEach(labels, r);
    r
  }

  lemma LowerEach(labels: seq<string>, r: seq<string>)
    requires |r| == |labels| && forall i :: 0 <= i < |r| ==> r[i] == Lower(labels[i])
    ensures forall i :: 0 <= i < |r| ==> IsLower(r[i]) && |r[i]| == |labels[i]|
  {
    forall i | 0 <= i < |r|
      ensures IsLower(r[i])
    {
      LowerIdempotent(labels[i]);
    }
  }

  predicate IsLower(s: string)
  {
    Lower(s) == s
  }

  /** Lower-casing twice is lower-casing once: the second `.lower()` applied
      to labels that were already lower-cased changes nothing. */
  lemma LowerIdempotent(s: string)
    ensures IsLower(Lower(s))
  {
  }

  lemma LoweredOfLower(labels: seq<string>)
    requires forall i :: 0 <= i < |labels| ==> IsLower(labels[i])
    ensures Lowered(labels) == labels
  {
  }

  lemma LoweredSnoc(labels: seq<string>, x: string)
    ensures Lowered(labels + [x]) == Lowered(labels) + [Lower(x)]
  {
  }

  // ---------------------------------------------------------------------
  // The synonym table

  /** The category a lower-cased label folds into, or None for a label the
      record has no key for (such labels are dropped). */
  function Category(w: string): Option<Emotion>
  {
    if w == "happy" then Some(Happy)
    else if w == "sad" then Some(Sad)
    else if w == "angry" then Some(Angry)
    else if w == "surprise" || w == "surprised" then Some(Surprise)
    else if w == "neutral" then Some(Neutral)
    else if w == "disgust" || w == "disgusted" then Some(Disgusted)
    else if w == "fear" || w == "fearful" then Some(Fearful)
    else None
  }

  /** Every record key is itself a label the table knows, folding into its
      own category. */
  lemma CategoryOfName(e: Emotion)
    ensures Category(Name(e)) == Some(e)
  {
  }

  /** The classifier's capitalised spellings fold into the same categories
      as the lower-case ones. */
  lemma CapitalisedLabelsFold()
    ensures Category(Lower("Happy")) == Some(Happy)
    ensures Category(Lower("SURPRISED")) == Some(Surprise)
  {
    assert Lower("Happy") == "happy";
    assert Lower("SURPRISED") == "surprised";
  }

  // ---------------------------------------------------------------------
  // The seven-key record

  /** One count per key; every key is always present and never negative. */
  datatype EmotionCounts = EmotionCounts(
    happy: nat, sad: nat, angry: nat, surprise: nat,
    neutral: nat, disgusted: nat, fearful: nat)

  const ZERO: EmotionCounts := EmotionCounts(0, 0, 0, 0, 0, 0, 0)

  function Get(c: EmotionCounts, e: Emotion): nat
  {
    match e
    case Happy => c.happy
    case Sad => c.sad
    case Angry => c.angry
    case Surprise => c.surprise
    case Neutral => c.neutral
    case Disgusted => c.disgusted
    case Fearful => c.fearful
  }

  function Total(c: EmotionCounts): nat
  {
    c.happy + c.sad + c.angry + c.surprise + c.neutral + c.disgusted + c.fearful
  }

  function Plus(c: EmotionCounts, d: EmotionCounts): (r: EmotionCounts)
    ensures forall e :: Get(r, e) == Get(c, e) + Get(d, e)
  {
    EmotionCounts(c.happy + d.happy, c.sad + d.sad, c.angry + d.angry,
                  c.surprise + d.surprise, c.neutral + d.neutral,
                  c.disgusted + d.disgusted, c.fearful + d.fearful)
  }

  lemma TotalPlus(c: EmotionCounts, d: EmotionCounts)
    ensures Total(Plus(c, d)) == Total(c) + Total(d)
  {
  }

  function Indicator(b: bool): nat
  {
    if b then 1 else 0
  }

  /** The record read off a Counter of lower-cased labels: each key takes
      the count of its own spelling and of its synonym, 0 when absent. */
  function FromCounter(counts: multiset<string>): EmotionCounts
  {
    EmotionCounts(
      happy := counts["happy"],
      sad := counts["sad"],
      angry := counts["angry"],
      surprise := counts["surprise"] + counts["surprised"],
      neutral := counts["neutral"],
      disgusted := counts["disgust"] + counts["disgusted"],
      fearful := counts["fear"] + counts["fearful"])
  }

  /** The counts contributed by one lower-cased label: the record of a
      Counter holding that label once. */
  function Single(w: string): EmotionCounts
  {
    FromCounter(multiset{w})
  }

  /** The record of a one-label Counter, key by key: each key counts whether
      the label is its own spelling or its synonym. */
  lemma SingleFields(w: string)
    ensures Single(w) == EmotionCounts(
      happy := Indicator(w == "happy"),
      sad := Indicator(w == "sad"),
      angry := Indicator(w == "angry"),
      surprise := Indicator(w == "surprise") + Indicator(w == "surprised"),
      neutral := Indicator(w == "neutral"),
      disgusted := Indicator(w == "disgust") + Indicator(w == "disgusted"),
      fearful := Indicator(w == "fear") + Indicator(w == "fearful"))
  {
    var empty: multiset<string> := multiset{};
    assert empty + multiset{w} == multiset{w};
    CounterAddAt(empty, w, "happy");
    CounterAddAt(empty, w, "sad");
    CounterAddAt(empty, w, "angry");
    CounterAddAt(empty, w, "surprise");
    CounterAddAt(empty, w, "surprised");
    CounterAddAt(empty, w, "neutral");
    CounterAddAt(empty, w, "disgust");
    CounterAddAt(empty, w, "disgusted");
    CounterAddAt(empty, w, "fear");
    CounterAddAt(empty, w, "fearful");
  }

  /** A label's contribution lands in the category the synonym table gives
      it, and nowhere at all when the table does not know it. */
  lemma SingleFollowsTable(w: string, e: Emotion)
    ensures Get(Single(w), e) == Indicator(Category(w) == Some(e))
    ensures Total(Single(w)) == Indicator(Category(w).Some?)
  {
    SingleFields(w);
  }

  lemma SingleUnknown(w: string)
    requires Category(w).None?
    ensures Single(w) == ZERO
  {
    SingleFields(w);
  }

  /** The record built from a frame's labels: they are lower-cased and
      counted, and the seven keys are read off the counts. */
  function Normalize(labels: seq<string>): EmotionCounts
  {
    FromCounter(multiset(Lowered(labels)))
  }

  /** Counting two batches of labels together gives the sum of their
      records. */
  lemma FromCounterUnion(a: multiset<string>, b: multiset<string>)
    ensures FromCounter(a + b) == Plus(FromCounter(a), FromCounter(b))
  {
  }

  /** One more occurrence of `w` in the Counter adds exactly `w`'s
      contribution to the record. */
  lemma FromCounterAdd(counts: multiset<string>, w: string)
    ensures FromCounter(counts + multiset{w}) == Plus(FromCounter(counts), Single(w))
  {
    FromCounterUnion(counts, multiset{w});
  }

  lemma CounterAddAt(counts: multiset<string>, w: string, k: string)
    ensures (counts + multiset{w})[k] == counts[k] + Indicator(w == k)
  {
  }

  // ---------------------------------------------------------------------
  // Reference definitions, label by label

  /** How many labels fold into category `e` under the synonym table. */
  function CountIn(labels: seq<string>, e: Emotion): nat
  {
    if labels == [] then 0
    else CountIn(labels[..|labels| - 1], e)
         + Indicator(Category(Lower(labels[|labels| - 1])) == Some(e))
  }

  /** How many labels the synonym table knows at all. */
  function KnownCount(labels: seq<string>): nat
  {
    if labels == [] then 0
    else KnownCount(labels[..|labels| - 1])
         + Indicator(Category(Lower(labels[|labels| - 1])).Some?)
  }

  predicate AllKnown(labels: seq<string>)
  {
    forall i :: 0 <= i < |labels| ==> Category(Lower(labels[i])).Some?
  }

  // ---------------------------------------------------------------------
  // Properties of Normalize

  lemma NormalizeEmpty()
    ensures Normalize([]) == ZERO
  {
  }

  /** Counting one more label adds exactly that label's contribution. */
  lemma NormalizeSnoc(labels: seq<string>, x: string)
    ensures Normalize(labels + [x]) == Plus(Normalize(labels), Single(Lower(x)))
  {
    LoweredSnoc(labels, x);
    var w := Lower(x);
    assert multiset(Lowered(labels + [x])) == multiset(Lowered(labels)) + multiset{w};
    FromCounterAdd(multiset(Lowered(labels)), w);
  }

  /** A label outside the synonym table is dropped: the record is the one
      the other labels give. */
  lemma NormalizeDropsUnknown(labels: seq<string>, x: string)
    requires Category(Lower(x)).None?
    ensures Normalize(labels + [x]) == Normalize(labels)
  {
    NormalizeSnoc(labels, x);
    SingleUnknown(Lower(x));
  }

  /** Each key of the record counts exactly the labels that fold into it. */
  lemma {:induction false} NormalizeMatchesTable(labels: seq<string>, e: Emotion)
    ensures Get(Normalize(labels), e) == CountIn(labels, e)
  {
    if labels == [] {
      NormalizeEmpty();
    } else {
      var init, last := labels[..|labels| - 1], labels[|labels| - 1];
      assert labels == init + [last];
      var w := Lower(last);
      assert Get(Normalize(labels), e) == Get(Normalize(init), e) + Get(Single(w), e) by {
        NormalizeSnoc(init, last);
      }
      assert Get(Single(w), e) == Indicator(Category(w) == Some(e)) by {
        SingleFollowsTable(w, e);
      }
      NormalizeMatchesTable(init, e);
      assert CountIn(labels, e) == CountIn(init, e) + Indicator(Category(w) == Some(e));
    }
  }

  /** The record's counts add up to the number of known labels. */
  lemma {:induction false} NormalizeTotal(labels: seq<string>)
    ensures Total(Normalize(labels)) == KnownCount(labels)
  {
    if labels == [] {
      NormalizeEmpty();
    } else {
      var init, last := labels[..|labels| - 1], labels[|labels| - 1];
      assert labels == init + [last];
      var w := Lower(last);
      assert Total(Normalize(labels)) == Total(Normalize(init)) + Indicator(Category(w).Some?) by {
        NormalizeSnoc(init, last);
        TotalPlus(Normalize(init), Single(w));
        SingleFollowsTable(w, Happy);
      }
      NormalizeTotal(init);
    }
  }

  lemma {:induction false} KnownCountBound(labels: seq<string>)
    ensures KnownCount(labels) <= |labels|
    ensures KnownCount(labels) == |labels| <==> AllKnown(labels)
  {
    if labels != [] {
      var init := labels[..|labels| - 1];
      KnownCountBound(init);
      if AllKnown(labels) {
        assert AllKnown(init) by {
          forall i | 0 <= i < |init| ensures Category(Lower(init[i])).Some? {
            assert init[i] == labels[i];
          }
        }
      } else if AllKnown(init) {
        assert !Category(Lower(labels[|labels| - 1])).Some? by {
          forall i | 0 <= i < |labels| - 1 ensures Category(Lower(labels[i])).Some? {
            assert labels[i] == init[i];
          }
        }
      }
    }
  }

  /** The total never exceeds the number of labels, and equals it exactly
      when every label is in the synonym table. */
  lemma NormalizeTotalBound(labels: seq<string>)
    ensures Total(Normalize(labels)) <= |labels|
    ensures Total(Normalize(labels)) == |labels| <==> AllKnown(labels)
  {
    NormalizeTotal(labels);
    KnownCountBound(labels);
  }

  /** Labels that are all outside the synonym table still make a record,
      with every count zero. */
  lemma {:induction false} NormalizeAllUnknown(labels: seq<string>)
    requires forall i :: 0 <= i < |labels| ==> Category(Lower(labels[i])).None?
    ensures Normalize(labels) == ZERO
  {
    if labels == [] {
      NormalizeEmpty();
    } else {
      var init := labels[..|labels| - 1];
      assert labels == init + [labels[|labels| - 1]];
      assert forall i :: 0 <= i < |init| ==> init[i] == labels[i];
      NormalizeAllUnknown(init);
      NormalizeDropsUnknown(init, labels[|labels| - 1]);
    }
  }

  /** The example: one surprised, one fear and one happy face. */
  lemma NormalizeExample()
    ensures Normalize(["surprised", "fear", "happy"])
         == EmotionCounts(happy := 1, sad := 0, angry := 0, surprise := 1,
                          neutral := 0, disgusted := 0, fearful := 1)
  {
    var labels := ["surprised", "fear", "happy"];
    assert Lowered(labels) == labels by {
      assert IsLower("surprised") && IsLower("fear") && IsLower("happy");
      LoweredOfLower(labels);
    }
    var counts := multiset(labels);
    assert counts == multiset{"surprised"} + multiset{"fear"} + multiset{"happy"};
  }
}
