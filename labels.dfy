/**
 * Label normalisers. `_cleanup_label` in src/views.py splits a label at its
 * first space, upper-cases the first piece and joins the pieces again with
 * a space; src/app.py upper-cases the whole label.
 */
module Labels {
  import opened Text

  /** Where the first token ends: the first space, or the end of the label. */
  function HeadEnd(raw: string): nat
  {
    IndexOf(raw, ' ')
  }

  /** `_cleanup_label`: upper-case the first token, leave the rest untouched. */
  function CleanupLabel(raw: string): (r: string)
    ensures |r| == |raw|
    ensures forall j :: 0 <= j < |raw| ==>
      r[j] == if j < HeadEnd(raw) then UpperChar(raw[j]) else raw[j]
  {
    var i := IndexOf(raw, ' ');
    if i == |raw| then UpperAll(raw)
    else UpperAll(raw[..i]) + " " + raw[i + 1..]
  }

  /** A label without a space is upper-cased as a whole. */
  lemma CleanupWithoutSpace(raw: string, up: string)
    requires forall j :: 0 <= j < |raw| ==> raw[j] != ' '
    requires |up| == |raw| && forall j :: 0 <= j < |raw| ==> up[j] == UpperChar(raw[j])
    ensures CleanupLabel(raw) == up
  {
    assert HeadEnd(raw) == |raw|;
  }

  /** A label with a first space: the head before it is upper-cased, the rest kept. */
  lemma CleanupAtSpace(head: string, up: string, rest: string)
    requires forall j :: 0 <= j < |head| ==> head[j] != ' '
    requires |up| == |head| && forall j :: 0 <= j < |head| ==> up[j] == UpperChar(head[j])
    ensures CleanupLabel(head + " " + rest) == up + " " + rest
  {
    var raw := head + " " + rest;
    assert raw[|head|] == ' ';
    assert forall j :: 0 <= j < |head| ==> raw[j] == head[j];
    assert HeadEnd(raw) == |head|;
    var r := CleanupLabel(raw);
    assert forall j :: 0 <= j < |r| ==> r[j] == (up + " " + rest)[j];
  }

  /** The first token comes out upper-cased, and from the first space on nothing changes. */
  lemma CleanupLabelShape(raw: string)
    ensures NoLowerAscii(CleanupLabel(raw)[..HeadEnd(raw)])
    ensures CleanupLabel(raw)[..HeadEnd(raw)] == UpperAll(raw[..HeadEnd(raw)])
    ensures CleanupLabel(raw)[HeadEnd(raw)..] == raw[HeadEnd(raw)..]
  {
  }

  /** Spaces stay exactly where they were, so the token count is preserved. */
  lemma CleanupLabelKeepsSpaces(raw: string)
    ensures forall j :: 0 <= j < |raw| ==> (CleanupLabel(raw)[j] == ' ' <==> raw[j] == ' ')
    ensures HeadEnd(CleanupLabel(raw)) == HeadEnd(raw)
  {
    var r := CleanupLabel(raw);
    var i := HeadEnd(raw);
    assert forall j :: 0 <= j < i ==> r[j] != ' ';
    if i < |raw| {
      assert r[i] == ' ';
    }
  }

  /** Normalising a normalised raw changes nothing. */
  lemma CleanupLabelIdempotent(raw: string)
    ensures CleanupLabel(CleanupLabel(raw)) == CleanupLabel(raw)
  {
    CleanupLabelKeepsSpaces(raw);
  }

  /** The test table's examples. */
  lemma CleanupLabelExamples()
    ensures CleanupLabel("asdf") == "ASDF"
    ensures CleanupLabel("as df") == "AS df"
    ensures CleanupLabel("as (df)") == "AS (df)"
  {
    assert IndexOf("asdf", ' ') == 4;
    assert IndexOf("as df", ' ') == 2;
    assert IndexOf("as (df)", ' ') == 2;
  }

  /** src/app.py's normaliser: the whole raw upper-cased. */
  function UpperLabel(raw: string): (r: string)
    ensures |r| == |raw| && NoLowerAscii(r)
    ensures forall j :: 0 <= j < |raw| ==> r[j] == UpperChar(raw[j])
  {
    UpperAll(raw)
  }

  /**
   * The two normalisers agree up to the case of the text after the first
   * space: upper-casing a cleaned raw gives the fully upper-cased one, and
   * they coincide exactly when that text has no lower-case letter.
   */
  lemma UpperLabelVersusCleanup(raw: string)
    ensures UpperLabel(CleanupLabel(raw)) == UpperLabel(raw)
    ensures CleanupLabel(raw) == UpperLabel(raw) <==> NoLowerAscii(raw[HeadEnd(raw)..])
  {
    var i := HeadEnd(raw);
    if CleanupLabel(raw) == UpperLabel(raw) {
      forall j | 0 <= j < |raw| - i
        ensures !IsLowerAscii(raw[i..][j])
      {
        assert CleanupLabel(raw)[i + j] == UpperLabel(raw)[i + j];
      }
    }
  }

  lemma UpperLabelExample()
    ensures UpperLabel("as df") == "AS DF"
    ensures CleanupLabel("as df") == "AS df"
  {
    CleanupLabelExamples();
  }
}
