/** `src/components/program.py`: one docking program's state — its ligand
    and decoy score tables, the two progress flags and the twelve metric
    fields `generate` fills from the computed curves. A table is its single
    `score` column; the curve computation, which fits a logistic model, is a
    parameter of `Generate`. */
module Programs {
  import opened Wrappers
  import opened DockStats

  /** The ROC part of `calculate_curves`' result. */
  datatype RocData = RocData(x: seq<real>, y: seq<real>, auc: real, thresholds: seq<real>, bedroc: real)

  /** The precision-recall part: recall as `x`, precision as `y`. */
  datatype PrData = PrData(x: seq<real>, y: seq<real>, thresholds: seq<real>)

  /** The dictionary `calculate_curves` returns. */
  datatype Curves = Curves(roc: RocData, pc: PcData, precisionRecall: PrData)

  /** The twelve metric fields of a program, `None` until generated. */
  datatype Metrics = Metrics(
    quantiles: Option<seq<real>>, probabilities: Option<seq<real>>,
    prevalence: Option<real>, enrichmentFactors: Option<seq<Option<real>>>,
    fpr: Option<seq<real>>, tpr: Option<seq<real>>, auc: Option<real>,
    thresholds: Option<seq<real>>, bedroc: Option<real>,
    recall: Option<seq<real>>, precision: Option<seq<real>>, prThresholds: Option<seq<real>>)

  /** The metric fields after `generate` copied them out of `c`. */
  function MetricsOf(c: Curves): (m: Metrics)
  {
    Metrics(
      Some(c.pc.x), Some(c.pc.y), Some(c.pc.prevalence), Some(c.pc.efs),
      Some(c.roc.x), Some(c.roc.y), Some(c.roc.auc), Some(c.roc.thresholds), Some(c.roc.bedroc),
      Some(c.precisionRecall.x), Some(c.precisionRecall.y), Some(c.precisionRecall.thresholds))
  }

  /** What `to_dict` returns and `from_dict` reads. */
  datatype ProgramData = ProgramData(ligands: seq<Cell>, decoys: seq<Cell>)

  /** The fresh table `pd.DataFrame(data=[{'score': None}])`: one row, no score. */
  const EmptyTable: seq<Cell> := [None]

  /** The frame `generate` builds: ligand rows labelled 1, then decoy rows
      labelled 0, under the columns `score` and `activity`. */
  function LabelledFrame(ligands: seq<Cell>, decoys: seq<Cell>): (f: Frame)
    ensures WellFormed(f)
  {
    Frame(["score", "activity"],
          seq(|ligands|, i requires 0 <= i < |ligands| => [ligands[i], Some(1.0)]) +
          seq(|decoys|, i requires 0 <= i < |decoys| => [decoys[i], Some(0.0)]))
  }

  /** The activity column of the labelled frame: `nl` ones, then `nd` zeros. */
  function ActivityLabels(nl: nat, nd: nat): (a: seq<Cell>)
  {
    seq(nl + nd, i requires 0 <= i < nl + nd => if i < nl then Some(1.0) else Some(0.0))
  }

  /** Some score in the tables is present. */
  predicate HasScore(scores: seq<Cell>)
  {
    exists i :: 0 <= i < |scores| && scores[i].Some?
  }

  /** `preprocess_data` on the labelled frame: it succeeds exactly when some
      score is present (otherwise the score column is dropped and only the
      activity column is left), and then hands on the scores of the ligands
      followed by those of the decoys with `|ligands|` leading ones as
      activity. */
  lemma LabelledColumns(ligands: seq<Cell>, decoys: seq<Cell>)
    ensures var r := PreprocessData(LabelledFrame(ligands, decoys));
            && (r.Success? <==> HasScore(ligands + decoys))
            && (r.Success? ==> r.value == Columns(ligands + decoys, ActivityLabels(|ligands|, |decoys|)))
  {
    var f := LabelledFrame(ligands, decoys);
    var s := ligands + decoys;
    var n := |s|;
    assert |f.rows| == n;
    forall r | 0 <= r < n ensures f.rows[r][0] == s[r] && f.rows[r][1].Some? {
      if r < |ligands| {
        assert f.rows[r] == [ligands[r], Some(1.0)];
      } else {
        assert f.rows[r] == [decoys[r - |ligands|], Some(0.0)];
      }
    }
    assert HasData(f, 0) <==> HasScore(s) by {
      if HasData(f, 0) {
        var r :| 0 <= r < n && f.rows[r][0].Some?;
        assert s[r].Some?;
      }
      if HasScore(s) {
        var r :| 0 <= r < n && s[r].Some?;
        assert f.rows[r][0].Some?;
      }
    }
    if HasScore(s) {
      var r :| 0 <= r < n && s[r].Some?;
      assert HasData(f, 1) by {
        assert f.rows[r][1].Some?;
      }
      assert FirstTwoKept(f, 0, 1);
      assert Column(f, 0) == s;
      forall i | 0 <= i < n ensures Column(f, 1)[i] == ActivityLabels(|ligands|, |decoys|)[i] {
        if i < |ligands| {
          assert f.rows[i] == [ligands[i], Some(1.0)];
        } else {
          assert f.rows[i] == [decoys[i - |ligands|], Some(0.0)];
        }
      }
      assert Column(f, 1) == ActivityLabels(|ligands|, |decoys|);
    }
  }

  /** The first half of `generate`: label the tables and select the columns. */
  function GenerateColumns(ligands: seq<Cell>, decoys: seq<Cell>): (r: Result<Columns, FrameError>)
    ensures r.Success? <==> HasScore(ligands + decoys)
    ensures r.Success? ==> r.value == Columns(ligands + decoys, ActivityLabels(|ligands|, |decoys|))
  {
    LabelledColumns(ligands, decoys);
    PreprocessData(LabelledFrame(ligands, decoys))
  }

  /** Why `generate` raised: the column selection found no score column,
      or the curve computation (the logistic fit) failed. */
  datatype GenerateError = ColumnsMissing(error: FrameError) | CurvesFailed

  /** `generate` completes on these tables: some score is present and the
      curve computation succeeds on the labelled columns. */
  predicate Generates(ligands: seq<Cell>, decoys: seq<Cell>, computeCurves: (seq<Cell>, seq<Cell>) -> Option<Curves>)
  {
    HasScore(ligands + decoys) && computeCurves(ligands + decoys, ActivityLabels(|ligands|, |decoys|)).Some?
  }

  /** `p` holds what a completed `generate` leaves behind: its tables
      generate, the flag is set and the metric fields come from the curves
      computed on its labelled columns. */
  ghost predicate GeneratedBy(p: Program, computeCurves: (seq<Cell>, seq<Cell>) -> Option<Curves>)
    reads p
  {
    && Generates(p.ligands, p.decoys, computeCurves)
    && p.dataGenerated
    && p.metrics == MetricsOf(computeCurves(p.ligands + p.decoys, ActivityLabels(|p.ligands|, |p.decoys|)).value)
  }

  class Program {
    const name: string
    var ligands: seq<Cell>
    var decoys: seq<Cell>

    /** `__quantiles` … `__pr_thresholds`, held as one record. */
    var metrics: Metrics

    var dataGenerated: bool
    var dataInputted: bool

    constructor(name: string)
      ensures this.name == name
      ensures ligands == EmptyTable && decoys == EmptyTable
      ensures !dataGenerated && !dataInputted
      ensures metrics == Metrics(None, None, None, None, None, None, None, None, None, None, None, None)
    {
      this.name := name;
      ligands := EmptyTable;
      decoys := EmptyTable;
      metrics := Metrics(None, None, None, None, None, None, None, None, None, None, None, None);
      dataGenerated := false;
      dataInputted := false;
    }

    /** `set_data`: replace both tables and record that data was entered. */
    method SetData(ligandsScore: seq<Cell>, decoysScore: seq<Cell>)
      modifies this
      ensures ligands == ligandsScore && decoys == decoysScore
      ensures dataInputted
      ensures dataGenerated == old(dataGenerated)
      ensures metrics == old(metrics)
    {
      ligands := ligandsScore;
      decoys := decoysScore;
      dataInputted := true;
    }

    /** `generate`: label copies of the tables, select the columns and store
        the curves `computeCurves` computes from them. When no score is
        present the column selection raises, and when the curve computation
        fails (`LogisticRegression.fit` on a single class, say) it raises;
        either way nothing changes. */
    method Generate(computeCurves: (seq<Cell>, seq<Cell>) -> Option<Curves>) returns (err: Option<GenerateError>)
      modifies this
      ensures err.None? <==> Generates(ligands, decoys, computeCurves)
      ensures err.Some? ==> (err.value.ColumnsMissing? <==> !HasScore(ligands + decoys))
      ensures ligands == old(ligands) && decoys == old(decoys)
      ensures dataInputted == old(dataInputted)
      ensures err.Some? ==> unchanged(this)
      ensures err.None? ==>
                && dataGenerated
                && metrics == MetricsOf(computeCurves(ligands + decoys, ActivityLabels(|ligands|, |decoys|)).value)
    {
      var r := GenerateColumns(ligands, decoys);
      if r.Failure? {
        err := Some(ColumnsMissing(r.error));
      } else {
        var curves := computeCurves(r.value.scores, r.value.activity);
        if curves.None? {
          err := Some(CurvesFailed);
        } else {
          metrics := MetricsOf(curves.value);
          dataGenerated := true;
          err := None;
        }
      }
    }

    /** `to_dict`: the two tables. */
    method ToDict() returns (d: ProgramData)
      ensures d.ligands == ligands && d.decoys == decoys
    {
      d := ProgramData(ligands, decoys);
    }

    /** `from_dict`: take both tables from a checkpoint, leaving the flags and
        the metric fields as they are. */
    method FromDict(d: ProgramData)
      modifies this
      ensures ligands == d.ligands && decoys == d.decoys
      ensures dataInputted == old(dataInputted) && dataGenerated == old(dataGenerated)
      ensures metrics == old(metrics)
    {
      ligands := d.ligands;
      decoys := d.decoys;
    }
  }

  /** A program saved with `to_dict` and loaded into a new program of the same
      name with `from_dict` has the same tables. */
  method Checkpoint(p: Program) returns (q: Program)
    ensures q.name == p.name && q.ligands == p.ligands && q.decoys == p.decoys
    ensures !q.dataInputted && !q.dataGenerated
  {
    var d := p.ToDict();
    q := new Program(p.name);
    q.FromDict(d);
  }
}
