/**
 * What one analysed frame yields (`EduMoodRecognizer._analyze_frame`): for
 * each detected face, the classifier's answer is reduced to one optional,
 * lower-cased dominant-emotion label; faces whose classification fails are
 * skipped, the others are drawn onto the frame and their non-empty labels
 * collected in face order.
 *
 * Face detection and emotion classification are not modelled: a frame's
 * faces arrive as a sequence of regions, each with the classifier's answer
 * for that region. Drawing a box and a label is a parameter `draw`.
 */
module FaceAnalysis {
  import opened Wrappers
  import opened Emotions

  /** A detected face's bounding box (x, y, width, height). */
  datatype Region = Region(x: int, y: int, w: int, h: int)

  /** The classifier's answer for one face: it raised, or it returned a list
      of result dictionaries, or a single result dictionary. */
  datatype Analysis =
    | Raised
    | AsList(items: seq<map<string, string>>)
    | AsDict(fields: map<string, string>)

  datatype Face = Face(region: Region, analysis: Analysis)

  const DOMINANT_KEY: string := "dominant_emotion"

  /** The dictionary's dominant emotion, or "" when the key is absent. */
  function DominantOf(fields: map<string, string>): string
  {
    if DOMINANT_KEY in fields then fields[DOMINANT_KEY] else ""
  }

  /** The face's lower-cased dominant emotion, or None when handling the
      answer raised and the face is skipped: the classifier itself raised, or
      it returned an empty list, whose first element cannot be taken. A
      present answer without the key gives "". */
  function Dominant(a: Analysis): (r: Option<string>)
    ensures r.None? <==> a.Raised? || (a.AsList? && a.items == [])
    ensures r.Some? ==> IsLower(r.value)
    ensures a.AsDict? && DOMINANT_KEY !in a.fields ==> r == Some("")
    ensures a.AsDict? && DOMINANT_KEY in a.fields ==> r == Some(Lower(a.fields[DOMINANT_KEY]))
    ensures a.AsList? && a.items != [] && DOMINANT_KEY !in a.items[0] ==> r == Some("")
    ensures a.AsList? && a.items != [] && DOMINANT_KEY in a.items[0] ==> r == Some(Lower(a.items[0][DOMINANT_KEY]))
  {
    match a
    case Raised => None
    case AsList(items) =>
      if items == [] then None
      else LowerIdempotent(DominantOf(items[0])); Some(Lower(DominantOf(items[0])))
    case AsDict(fields) =>
      LowerIdempotent(DominantOf(fields)); Some(Lower(DominantOf(fields)))
  }

  /** The label a face contributes: its dominant emotion when that is
      present and non-empty, nothing otherwise. */
  function FaceLabels(f: Face): seq<string>
  {
    match Dominant(f.analysis)
    case Some(d) => if d != "" then [d] else []
    case None => []
  }

  /** The labels collected from the faces, in face order. */
  function Labels(faces: seq<Face>): seq<string>
  {
    if faces == [] then []
    else Labels(faces[..|faces| - 1]) + FaceLabels(faces[|faces| - 1])
  }

  /** The frame after one face: a face whose answer was handled is drawn
      with its label (even an empty one); a skipped face leaves it as is. */
  function AnnotateFace<F>(draw: (F, Region, string) -> F, img: F, f: Face): F
  {
    match Dominant(f.analysis)
    case Some(d) => draw(img, f.region, d)
    case None => img
  }

  /** The frame after all faces, drawn in face order. */
  function Annotate<F>(draw: (F, Region, string) -> F, img: F, faces: seq<Face>): F
  {
    if faces == [] then img
    else AnnotateFace(draw, Annotate(draw, img, faces[..|faces| - 1]), faces[|faces| - 1])
  }

  predicate Skipped(f: Face)
  {
    Dominant(f.analysis).None?
  }

  // ---------------------------------------------------------------------
  // Properties

  lemma {:induction false} LabelsAppend(a: seq<Face>, b: seq<Face>)
    ensures Labels(a + b) == Labels(a) + Labels(b)
  {
    if b == [] {
      assert a + b == a;
    } else {
      var b', f := b[..|b| - 1], b[|b| - 1];
      assert (a + b)[..|a + b| - 1] == a + b';
      assert (a + b)[|a + b| - 1] == f;
      LabelsAppend(a, b');
    }
  }

  /** Each face contributes at most one label. */
  lemma {:induction false} LabelsBound(faces: seq<Face>)
    ensures |Labels(faces)| <= |faces|
  {
    if faces != [] {
      LabelsBound(faces[..|faces| - 1]);
    }
  }

  /** Every collected label is non-empty and already lower-case. */
  lemma {:induction false} LabelsWellFormed(faces: seq<Face>)
    ensures forall i :: 0 <= i < |Labels(faces)| ==> Labels(faces)[i] != "" && IsLower(Labels(faces)[i])
  {
    if faces != [] {
      var init := faces[..|faces| - 1];
      LabelsWellFormed(init);
      var l1, l2 := Labels(init), FaceLabels(faces[|faces| - 1]);
      assert Labels(faces) == l1 + l2;
      forall i | 0 <= i < |l1 + l2|
        ensures (l1 + l2)[i] != "" && IsLower((l1 + l2)[i])
      {
        if i >= |l1| {
          assert (l1 + l2)[i] == l2[i - |l1|];
        }
      }
    }
  }

  /** Of a list answer only the first result is read: the face gets the
      label that result alone would give as a dictionary answer. */
  lemma OnlyFirstResult(m: map<string, string>, rest: seq<map<string, string>>)
    ensures Dominant(AsList([m] + rest)) == Dominant(AsDict(m))
  {
  }

  /** Faces answered with dictionaries whose dominant emotions are given,
      non-empty and lower-case, contribute exactly those emotions, in face
      order. */
  lemma {:induction false} LabelsOfDictionaries(faces: seq<Face>, values: seq<string>)
    requires |values| == |faces|
    requires forall i :: 0 <= i < |faces| ==>
               && faces[i].analysis.AsDict?
               && DOMINANT_KEY in faces[i].analysis.fields
               && faces[i].analysis.fields[DOMINANT_KEY] == values[i]
    requires forall i :: 0 <= i < |values| ==> values[i] != "" && IsLower(values[i])
    ensures Labels(faces) == values
  {
    if faces != [] {
      var n := |faces| - 1;
      var init, vinit := faces[..n], values[..n];
      assert forall i :: 0 <= i < n ==> init[i] == faces[i] && vinit[i] == values[i];
      assert Labels(init) == vinit by {
        LabelsOfDictionaries(init, vinit);
      }
      assert FaceLabels(faces[n]) == [values[n]] by {
        assert Lower(values[n]) == values[n];
      }
      assert values == vinit + [values[n]];
    }
  }

  lemma {:induction false} AnnotateAppend<F>(draw: (F, Region, string) -> F, img: F, a: seq<Face>, b: seq<Face>)
    ensures Annotate(draw, img, a + b) == Annotate(draw, Annotate(draw, img, a), b)
  {
    if b == [] {
      assert a + b == a;
    } else {
      var b', f := b[..|b| - 1], b[|b| - 1];
      assert (a + b)[..|a + b| - 1] == a + b';
      assert (a + b)[|a + b| - 1] == f;
      AnnotateAppend(draw, img, a, b');
    }
  }

  /** A face whose classification fails neither aborts the frame nor
      changes what the other faces contribute: the labels and the drawn
      frame are those of the remaining faces. */
  lemma SkippedFaceIsIgnored<F>(draw: (F, Region, string) -> F, img: F, a: seq<Face>, f: Face, b: seq<Face>)
    requires Skipped(f)
    ensures Labels(a + [f] + b) == Labels(a) + Labels(b)
    ensures Annotate(draw, img, a + [f] + b) == Annotate(draw, img, a + b)
  {
    assert Labels([f]) == [] by {
      assert [f][..0] == [];
    }
    assert Labels(a + [f] + b) == Labels(a) + Labels(b) by {
      LabelsAppend(a + [f], b);
      LabelsAppend(a, [f]);
    }
    assert Annotate(draw, Annotate(draw, img, a), [f]) == Annotate(draw, img, a) by {
      assert [f][..0] == [];
    }
    assert Annotate(draw, img, a + [f] + b) == Annotate(draw, img, a + b) by {
      AnnotateAppend(draw, img, a + [f], b);
      AnnotateAppend(draw, img, a, [f]);
      AnnotateAppend(draw, img, a, b);
    }
  }

  /** When every face is skipped (or there are none), no label is collected
      and the frame is returned as it came. */
  lemma {:induction false} AllSkipped<F>(draw: (F, Region, string) -> F, img: F, faces: seq<Face>)
    requires forall i :: 0 <= i < |faces| ==> Skipped(faces[i])
    ensures Labels(faces) == []
    ensures Annotate(draw, img, faces) == img
  {
    if faces != [] {
      var init := faces[..|faces| - 1];
      assert forall i :: 0 <= i < |init| ==> init[i] == faces[i];
      AllSkipped(draw, img, init);
    }
  }
}
