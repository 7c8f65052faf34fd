/** The two string helpers nested in `get_plt_from_plotly`
    (`src/utils/app_utils.py`): the plotly-to-matplotlib line style and the
    trace label with its HTML tags removed. */
module AppUtils {
  import opened Wrappers

  /** `convert_line_dash`: plotly's `dash` setting (possibly `None`) as a
      matplotlib line style. */
  function ConvertLineDash(dash: Option<string>): (style: string)
    ensures style == "--" <==> dash == Some("dash")
    ensures style == ":" <==> dash == Some("dot")
    ensures style == "-" <==> dash != Some("dash") && dash != Some("dot")
  {
    if dash == Some("dash") then "--"
    else if dash == Some("dot") then ":"
    else "-"
  }

  /** `pat` occurs in `s` starting at index `i`. */
  predicate OccursAt(s: string, pat: string, i: nat)
  {
    i + |pat| <= |s| && s[i..i + |pat|] == pat
  }

  ghost predicate Occurs(s: string, pat: string)
  {
    exists i: nat :: OccursAt(s, pat, i)
  }

  /** `s.replace(pat, '')`: scan from the left, dropping each occurrence of
      `pat` and resuming after it, so occurrences do not overlap. */
  function RemoveAll(s: string, pat: string): (r: string)
    requires |pat| > 0
    ensures |r| <= |s|
    decreases |s|
  {
    if |s| == 0 then ""
    else if OccursAt(s, pat, 0) then RemoveAll(s[|pat|..], pat)
    else [s[0]] + RemoveAll(s[1..], pat)
  }

  /** Removal leaves a string unchanged exactly when the pattern does not
      occur in it; otherwise the string gets shorter. */
  lemma {:induction false} RemoveAllUnchanged(s: string, pat: string)
    requires |pat| > 0
    ensures RemoveAll(s, pat) == s <==> !Occurs(s, pat)
    ensures Occurs(s, pat) ==> |RemoveAll(s, pat)| < |s|
    decreases |s|
  {
    if |s| == 0 {
      assert !Occurs(s, pat);
    } else if OccursAt(s, pat, 0) {
      assert Occurs(s, pat);
      assert |RemoveAll(s, pat)| <= |s| - |pat|;
    } else {
      RemoveAllUnchanged(s[1..], pat);
      if Occurs(s, pat) {
        var i: nat :| OccursAt(s, pat, i);
        OccursShift(s, pat, i - 1);
      } else {
        forall i: nat | i + |pat| <= |s| - 1 ensures !OccursAt(s[1..], pat, i) {
          OccursShift(s, pat, i);
        }
      }
    }
  }

  /** An occurrence in the tail is an occurrence one place later in the whole. */
  lemma OccursShift(s: string, pat: string, i: nat)
    requires |s| > 0
    ensures OccursAt(s[1..], pat, i) <==> OccursAt(s, pat, i + 1)
  {
    if i + 1 + |pat| <= |s| {
      assert s[1..][i..i + |pat|] == s[i + 1..i + 1 + |pat|];
    }
  }

  /** `format_trace_label`: drop every `<br>`, then every `<b>`, then every `</b>`. */
  function FormatTraceLabel(traceName: string): (r: string)
    ensures |r| <= |traceName|
  {
    RemoveAll(RemoveAll(RemoveAll(traceName, "<br>"), "<b>"), "</b>")
  }

  /** A label never grows, and a label without `<` holds no tag and is
      returned as it is. */
  lemma FormatTraceLabelPlain(traceName: string)
    ensures |FormatTraceLabel(traceName)| <= |traceName|
    ensures '<' !in traceName ==> FormatTraceLabel(traceName) == traceName
  {
    if '<' !in traceName {
      NoTagWithoutOpen(traceName, "<br>");
      NoTagWithoutOpen(traceName, "<b>");
      NoTagWithoutOpen(traceName, "</b>");
      RemoveAllUnchanged(traceName, "<br>");
      RemoveAllUnchanged(traceName, "<b>");
      RemoveAllUnchanged(traceName, "</b>");
    }
  }

  /** A pattern that starts with `<` does not occur in a string without `<`. */
  lemma NoTagWithoutOpen(s: string, tag: string)
    requires |tag| > 0 && tag[0] == '<' && '<' !in s
    ensures !Occurs(s, tag)
  {
    forall i: nat | i + |tag| <= |s| ensures !OccursAt(s, tag, i) {
      assert s[i..i + |tag|][0] == s[i] != '<';
    }
  }

  /** Removing `<b>` can assemble a `<br>` that the earlier pass did not
      see, so formatting a formatted label can change it again. */
  lemma FormatTraceLabelNotIdempotent()
    ensures FormatTraceLabel("<<b>br>") == "<br>"
    ensures FormatTraceLabel("<br>") == ""
  {
    ExampleNoBreak();
    ExampleBold();
    ExampleNoClose();
    ExampleBreak();
  }

  lemma ExampleNoBreak()
    ensures RemoveAll("<<b>br>", "<br>") == "<<b>br>"
  {
    var s := "<<b>br>";
    forall i: nat | i + 4 <= |s| ensures !OccursAt(s, "<br>", i) {
      assert s[i..i + 4][0] == s[i] && s[i..i + 4][1] == s[i + 1] && s[i..i + 4][2] == s[i + 2];
    }
    RemoveAllUnchanged(s, "<br>");
  }

  lemma ExampleBold()
    ensures RemoveAll("<<b>br>", "<b>") == "<br>"
  {
    var s := "<<b>br>";
    assert !OccursAt(s, "<b>", 0) by {
      assert s[..3][1] == '<';
    }
    assert OccursAt(s[1..], "<b>", 0);
    assert s[1..][3..] == "br>";
    assert !OccursAt("br>", "<b>", 0) by {
      assert "br>"[..3][0] == 'b';
    }
    RemoveAllUnchanged("br>", "<b>");
  }

  lemma ExampleNoClose()
    ensures RemoveAll("<br>", "</b>") == "<br>"
  {
    assert !OccursAt("<br>", "</b>", 0) by {
      assert "<br>"[..4][1] == 'b';
    }
    RemoveAllUnchanged("<br>", "</b>");
  }

  lemma ExampleBreak()
    ensures RemoveAll("<br>", "<br>") == ""
  {
    assert OccursAt("<br>", "<br>", 0);
  }
}
