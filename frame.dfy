/**
 * `compute_rfm_scores`: the customer table as an object whose columns the
 * method adds, replaces or renames in place, with the schema (the set of
 * column names present) kept beside the column values.
 */
module Frame {
  import opened Wrappers
  import Scoring

  /** The names of the columns `compute_rfm_scores` reads or writes. */
  const ReservedNames: set<string> :=
    {"last_purchase_date", "total_spent", "avg_order_value", "monetary", "recency",
     "frequency", "R_score", "F_score", "M_score", "RFM_code"}

  /** The name of any other column of the table. */
  type OtherName = s: string | s !in ReservedNames witness ""

  /**
   * The columns `compute_rfm_scores` reads or writes; any other column of the
   * table is `Other`, under a name none of those carries.
   */
  datatype Column =
    | LastPurchaseDate | TotalSpent | AvgOrderValue | Monetary
    | Recency | Frequency | RScore | FScore | MScore | RfmCode
    | Other(name: OtherName)

  /** The column's name in the table. */
  function Name(c: Column): (name: string)
    ensures c.Other? ==> name == c.name
  {
    match c
    case LastPurchaseDate => "last_purchase_date"
    case TotalSpent => "total_spent"
    case AvgOrderValue => "avg_order_value"
    case Monetary => "monetary"
    case Recency => "recency"
    case Frequency => "frequency"
    case RScore => "R_score"
    case FScore => "F_score"
    case MScore => "M_score"
    case RfmCode => "RFM_code"
    case Other(name) => name
  }

  /**
   * Every column name is the name of one column: a column's name tells which
   * column it is, and exactly the named constructors carry reserved names.
   */
  lemma NameIdentifies(c: Column, d: Column)
    requires Name(c) == Name(d)
    ensures c == d
    ensures Name(c) in ReservedNames <==> !c.Other?
  {
  }

  /** What `compute_rfm_scores` raises. */
  datatype Raised =
    | KeyError(key: string)                   // a column the method reads is not in the table
    | ScoreFailed(error: Scoring.ScoreError)  // a quintile cut raised

  /** The schema after assigning column `name`: the column exists afterwards, whether it did before or not. */
  function WithColumn(columns: set<Column>, name: Column): (r: set<Column>)
  {
    columns + {name}
  }

  /** `rename(columns={from: to})`: `from`, if present, is present under the name `to` instead. */
  function Renamed(columns: set<Column>, from: Column, to: Column): (r: set<Column>)
  {
    if from in columns then columns - {from} + {to} else columns
  }

  /**
   * The schema once the recency and frequency columns exist and `total_spent`
   * is `monetary`: every other column is present exactly when it was before.
   */
  function MetricColumns(columns: set<Column>): (r: set<Column>)
    ensures Recency in r && Frequency in r && TotalSpent !in r
    ensures Monetary in r <==> TotalSpent in columns || Monetary in columns
    ensures forall c :: c !in {TotalSpent, Monetary, Recency, Frequency} ==> (c in r <==> c in columns)
  {
    Renamed(WithColumn(WithColumn(columns, Recency), Frequency), TotalSpent, Monetary)
  }

  /**
   * A customer table.  `spent` holds the `total_spent` column, called
   * `monetary` once renamed; day numbers stand for timestamps.
   */
  class CustomerTable {
    var columns: set<Column>
    var lastPurchase: seq<int>
    var spent: seq<int>
    var avgOrder: seq<int>
    var recency: seq<int>
    var frequency: seq<int>
    var rScore: seq<int>
    var fScore: seq<int>
    var mScore: seq<int>
    var rfmCode: seq<string>

    /** The input columns have one entry per row, and so does every derived column present. */
    ghost predicate Valid()
      reads this
    {
      && |spent| == |lastPurchase| && |avgOrder| == |lastPurchase|
      && (Recency in columns ==> |recency| == |lastPurchase|)
      && (Frequency in columns ==> |frequency| == |lastPurchase|)
      && (RScore in columns ==> |rScore| == |lastPurchase|)
      && (FScore in columns ==> |fScore| == |lastPurchase|)
      && (MScore in columns ==> |mScore| == |lastPurchase|)
      && (RfmCode in columns ==> |rfmCode| == |lastPurchase|)
    }

    /** A table with the three input columns the scorer reads and no derived column yet. */
    constructor (lastPurchase: seq<int>, spent: seq<int>, avgOrder: seq<int>)
      requires |spent| == |lastPurchase| && |avgOrder| == |lastPurchase|
      ensures Valid()
      ensures this.lastPurchase == lastPurchase && this.spent == spent && this.avgOrder == avgOrder
      ensures columns == {LastPurchaseDate, TotalSpent, AvgOrderValue}
    {
      columns := {LastPurchaseDate, TotalSpent, AvgOrderValue};
      this.lastPurchase, this.spent, this.avgOrder := lastPurchase, spent, avgOrder;
      recency, frequency, rScore, fScore, mScore, rfmCode := [], [], [], [], [], [];
    }

    /**
     * model.py lines 5-7: the snapshot is taken from `last_purchase_date` and
     * `df['recency']` is assigned.
     */
    method AddRecency()
      requires Valid()
      modifies this`columns, this`recency
      ensures Valid()
      ensures recency == Scoring.Recencies(lastPurchase) && columns == WithColumn(old(columns), Recency)
    {
      var rec := Scoring.Recencies(lastPurchase);
      recency := rec;
      columns := WithColumn(columns, Recency);
    }

    /**
     * model.py lines 8-9: `df['frequency']` is assigned and `total_spent` is
     * renamed `monetary`; its values stay as they are.
     */
    method AddFrequency()
      requires Valid()
      requires forall i :: 0 <= i < |avgOrder| ==> avgOrder[i] != 0
      modifies this`columns, this`frequency
      ensures Valid()
      ensures frequency == Scoring.Frequencies(spent, avgOrder)
      ensures columns == Renamed(WithColumn(old(columns), Frequency), TotalSpent, Monetary)
    {
      var freq := Scoring.Frequencies(spent, avgOrder);
      frequency := freq;
      columns := WithColumn(columns, Frequency);
      columns := Renamed(columns, TotalSpent, Monetary);
    }

    /** model.py line 10: `df['R_score'] = scores`. */
    method SetRScore(scores: seq<int>)
      requires Valid() && |scores| == |lastPurchase|
      modifies this`columns, this`rScore
      ensures Valid() && rScore == scores && columns == WithColumn(old(columns), RScore)
    {
      rScore := scores;
      columns := WithColumn(columns, RScore);
    }

    /** model.py line 11: `df['F_score'] = scores`. */
    method SetFScore(scores: seq<int>)
      requires Valid() && |scores| == |lastPurchase|
      modifies this`columns, this`fScore
      ensures Valid() && fScore == scores && columns == WithColumn(old(columns), FScore)
    {
      fScore := scores;
      columns := WithColumn(columns, FScore);
    }

    /** model.py line 12: `df['M_score'] = scores`. */
    method SetMScore(scores: seq<int>)
      requires Valid() && |scores| == |lastPurchase|
      modifies this`columns, this`mScore
      ensures Valid() && mScore == scores && columns == WithColumn(old(columns), MScore)
    {
      mScore := scores;
      columns := WithColumn(columns, MScore);
    }

    /**
     * model.py lines 10-17, given what the three `qcut` calls return: each score
     * column is assigned in turn, and the first cut that raised stops the
     * assignments there; with all three in place the RFM code follows.
     */
    method AddScores(rq: Result<seq<int>, Scoring.ScoreError>, fq: Result<seq<int>, Scoring.ScoreError>,
                     mq: Result<seq<int>, Scoring.ScoreError>) returns (raised: Option<Raised>)
      requires Valid()
      requires rq.Success? ==> |rq.value| == |lastPurchase|
      requires fq.Success? ==> |fq.value| == |lastPurchase|
      requires mq.Success? ==> |mq.value| == |lastPurchase|
      modifies this`columns, this`rScore, this`fScore, this`mScore, this`rfmCode
      ensures Valid()
      ensures if rq.Failure? then
                raised == Some(ScoreFailed(rq.error)) && columns == old(columns)
                && rScore == old(rScore) && fScore == old(fScore) && mScore == old(mScore) && rfmCode == old(rfmCode)
              else if fq.Failure? then
                raised == Some(ScoreFailed(fq.error)) && columns == WithColumn(old(columns), RScore)
                && rScore == rq.value && fScore == old(fScore) && mScore == old(mScore) && rfmCode == old(rfmCode)
              else if mq.Failure? then
                raised == Some(ScoreFailed(mq.error)) && columns == WithColumn(WithColumn(old(columns), RScore), FScore)
                && rScore == rq.value && fScore == fq.value && mScore == old(mScore) && rfmCode == old(rfmCode)
              else
                raised == None
                && columns == WithColumn(WithColumn(WithColumn(WithColumn(old(columns), RScore), FScore), MScore), RfmCode)
                && rScore == rq.value && fScore == fq.value && mScore == mq.value
                && rfmCode == Scoring.RfmCodes(rScore, fScore, mScore)
    {
      if rq.Failure? {
        return Some(ScoreFailed(rq.error));
      }
      SetRScore(rq.value);
      if fq.Failure? {
        return Some(ScoreFailed(fq.error));
      }
      SetFScore(fq.value);
      if mq.Failure? {
        return Some(ScoreFailed(mq.error));
      }
      SetMScore(mq.value);
      rfmCode := Scoring.RfmCodes(rScore, fScore, mScore);
      columns := WithColumn(columns, RfmCode);
      return None;
    }

    /**
     * model.py lines 10-17 on a table whose metrics are in place: the three
     * quintile cuts of recency, frequency and monetary, then their columns.
     */
    method AddQuintileScores() returns (raised: Option<Raised>)
      requires Valid() && Recency in columns && Frequency in columns && Monetary in columns
      modifies this`columns, this`rScore, this`fScore, this`mScore, this`rfmCode
      ensures Valid()
      ensures var rq, fq, mq := Scoring.Qcut(recency, Scoring.RLabels), Scoring.Qcut(frequency, Scoring.FMLabels),
                                Scoring.Qcut(spent, Scoring.FMLabels);
              var base := old(columns);
              if rq.Failure? then
                raised == Some(ScoreFailed(rq.error)) && columns == base
                && rScore == old(rScore) && fScore == old(fScore) && mScore == old(mScore) && rfmCode == old(rfmCode)
              else if fq.Failure? then
                raised == Some(ScoreFailed(fq.error)) && columns == WithColumn(base, RScore)
                && rScore == rq.value && fScore == old(fScore) && mScore == old(mScore) && rfmCode == old(rfmCode)
              else if mq.Failure? then
                raised == Some(ScoreFailed(mq.error)) && columns == WithColumn(WithColumn(base, RScore), FScore)
                && rScore == rq.value && fScore == fq.value && mScore == old(mScore) && rfmCode == old(rfmCode)
              else
                raised == None
                && columns == WithColumn(WithColumn(WithColumn(WithColumn(base, RScore), FScore), MScore), RfmCode)
                && rScore == rq.value && fScore == fq.value && mScore == mq.value
                && rfmCode == Scoring.RfmCodes(rScore, fScore, mScore)
    {
      var rq := Scoring.Qcut(recency, Scoring.RLabels);
      var fq := Scoring.Qcut(frequency, Scoring.FMLabels);
      var mq := Scoring.Qcut(spent, Scoring.FMLabels);
      raised := AddScores(rq, fq, mq);
    }

    /**
     * `compute_rfm_scores`: adds the metrics, then the three quintile scores
     * and the RFM code.  A missing input column raises `KeyError` where it is
     * first read: `last_purchase_date` before anything is written,
     * `total_spent` or `avg_order_value` once recency is in place (so a second
     * call, after the rename, raises there).  A cut that raises stops the
     * method with the columns written before it left in place.  The error is
     * returned as `Some`; the input values never change.
     */
    method ComputeRfmScores() returns (raised: Option<Raised>)
      requires Valid()
      requires forall i :: 0 <= i < |avgOrder| ==> avgOrder[i] != 0
      modifies this
      ensures Valid()
      ensures lastPurchase == old(lastPurchase) && spent == old(spent) && avgOrder == old(avgOrder)
      ensures LastPurchaseDate !in old(columns) ==>
                raised == Some(KeyError(Name(LastPurchaseDate))) && columns == old(columns)
                && recency == old(recency) && frequency == old(frequency)
                && rScore == old(rScore) && fScore == old(fScore) && mScore == old(mScore) && rfmCode == old(rfmCode)
      ensures LastPurchaseDate in old(columns) ==> recency == Scoring.Recencies(lastPurchase)
      ensures LastPurchaseDate in old(columns) && (TotalSpent !in old(columns) || AvgOrderValue !in old(columns)) ==>
                raised == Some(KeyError(if TotalSpent !in old(columns) then Name(TotalSpent) else Name(AvgOrderValue)))
                && columns == WithColumn(old(columns), Recency) && frequency == old(frequency)
                && rScore == old(rScore) && fScore == old(fScore) && mScore == old(mScore) && rfmCode == old(rfmCode)
      ensures LastPurchaseDate in old(columns) && TotalSpent in old(columns) && AvgOrderValue in old(columns) ==>
              frequency == Scoring.Frequencies(spent, avgOrder)
      ensures LastPurchaseDate in old(columns) && TotalSpent in old(columns) && AvgOrderValue in old(columns) ==>
              var rq, fq, mq := Scoring.Qcut(recency, Scoring.RLabels), Scoring.Qcut(frequency, Scoring.FMLabels),
                                Scoring.Qcut(spent, Scoring.FMLabels);
              var base := MetricColumns(old(columns));
              if rq.Failure? then
                raised == Some(ScoreFailed(rq.error)) && columns == base
                && rScore == old(rScore) && fScore == old(fScore) && mScore == old(mScore) && rfmCode == old(rfmCode)
              else if fq.Failure? then
                raised == Some(ScoreFailed(fq.error)) && columns == WithColumn(base, RScore)
                && rScore == rq.value && fScore == old(fScore) && mScore == old(mScore) && rfmCode == old(rfmCode)
              else if mq.Failure? then
                raised == Some(ScoreFailed(mq.error)) && columns == WithColumn(WithColumn(base, RScore), FScore)
                && rScore == rq.value && fScore == fq.value && mScore == old(mScore) && rfmCode == old(rfmCode)
              else
                raised == None
                && columns == WithColumn(WithColumn(WithColumn(WithColumn(base, RScore), FScore), MScore), RfmCode)
                && rScore == rq.value && fScore == fq.value && mScore == mq.value
                && rfmCode == Scoring.RfmCodes(rScore, fScore, mScore)
    {
      if LastPurchaseDate !in columns {
        return Some(KeyError(Name(LastPurchaseDate)));
      }
      AddRecency();
      if TotalSpent !in columns {
        return Some(KeyError(Name(TotalSpent)));
      }
      if AvgOrderValue !in columns {
        return Some(KeyError(Name(AvgOrderValue)));
      }
      AddFrequency();
      raised := AddQuintileScores();
    }
  }
}
