/**
 * The report loop of main: a header row, then one clean_alert row per alert,
 * entry by entry and alert by alert. An alert missing a required key raises
 * in the middle of the loop; the rows written before it stay in the file.
 */
module Report {
  import opened Wrappers
  import opened Alerts
  import opened Normalizer
  import opened Fetcher

  /** One alert together with the repository of the entry that holds it. */
  datatype Tagged = Tagged(repo: string, alert: Alert)

  /** The rows written so far, and the key whose absence stopped the loop, if any. */
  datatype Emitted = Emitted(rows: seq<Row>, failure: Option<Key>)

  /** The header row, one text cell per label. */
  const HEADER_ROW: Row := seq(|HEADER|, k requires 0 <= k < |HEADER| => Str(HEADER[k]))

  /** The alerts of one entry, each tagged with the entry's repository. */
  function TagAll(e: Entry): seq<Tagged> {
    seq(|e.alerts|, k requires 0 <= k < |e.alerts| => Tagged(e.repo, e.alerts[k]))
  }

  /** The alerts of all entries in the order the nested loops visit them. */
  function Flatten(entries: seq<Entry>): seq<Tagged>
    decreases |entries|
  {
    if |entries| == 0 then []
    else Flatten(entries[..|entries| - 1]) + TagAll(entries[|entries| - 1])
  }

  /** Writing the row of one more alert; after a failure nothing more is written. */
  function EmitStep(em: Emitted, t: Tagged): Emitted {
    if em.failure.Some? then em
    else match CleanAlert(t.repo, t.alert)
      case Success(row) => Emitted(em.rows + [row], None)
      case Failure(key) => Emitted(em.rows, Some(key))
  }

  /** The data rows written for `ts`, and the failure that ended the loop early, if any. */
  function Emit(ts: seq<Tagged>): Emitted
    decreases |ts|
  {
    if |ts| == 0 then Emitted([], None)
    else EmitStep(Emit(ts[..|ts| - 1]), ts[|ts| - 1])
  }

  /** Once writing has failed, later alerts change nothing. */
  lemma {:induction false} EmitFailureSticks(a: seq<Tagged>, b: seq<Tagged>)
    requires Emit(a).failure.Some?
    ensures Emit(a + b) == Emit(a)
    decreases |b|
  {
    if |b| == 0 {
      assert a + b == a;
    } else {
      assert (a + b)[..|a + b| - 1] == a + b[..|b| - 1];
      EmitFailureSticks(a, b[..|b| - 1]);
    }
  }

  /**
   * The loop writes a row for each alert in order until the first alert that
   * lacks a required key, and fails exactly when such an alert exists: the
   * rows are those of the longest prefix of complete alerts, and the failure
   * names the first missing key of the alert right after it.
   */
  lemma {:induction false} EmitSpec(ts: seq<Tagged>)
    ensures Emit(ts).failure.None? <==> forall k | 0 <= k < |ts| :: Complete(ts[k].alert)
    ensures |Emit(ts).rows| <= |ts|
    ensures Emit(ts).failure.None? ==> |Emit(ts).rows| == |ts|
    ensures forall k | 0 <= k < |Emit(ts).rows| ::
              Complete(ts[k].alert) && CleanAlert(ts[k].repo, ts[k].alert) == Success(Emit(ts).rows[k])
    ensures Emit(ts).failure.Some? ==>
              |Emit(ts).rows| < |ts|
              && CleanAlert(ts[|Emit(ts).rows|].repo, ts[|Emit(ts).rows|].alert) == Failure(Emit(ts).failure.value)
    decreases |ts|
  {
    if |ts| > 0 {
      var m := |ts| - 1;
      EmitSpec(ts[..m]);
      assert forall k | 0 <= k < m :: ts[..m][k] == ts[k];
    }
  }

  /** Flattening respects concatenation of the entry list. */
  lemma {:induction false} FlattenAppend(a: seq<Entry>, b: seq<Entry>)
    ensures Flatten(a + b) == Flatten(a) + Flatten(b)
    decreases |b|
  {
    if |b| == 0 {
      assert a + b == a;
    } else {
      var m := |b| - 1;
      var ab := a + b;
      assert ab[..|ab| - 1] == a + b[..m];
      assert ab[|ab| - 1] == b[m];
      FlattenAppend(a, b[..m]);
      assert Flatten(ab) == Flatten(a + b[..m]) + TagAll(b[m]);
      assert Flatten(b) == Flatten(b[..m]) + TagAll(b[m]);
      assert (Flatten(a) + Flatten(b[..m])) + TagAll(b[m]) == Flatten(a) + (Flatten(b[..m]) + TagAll(b[m]));
    }
  }

  /** There is one tagged alert per alert of every entry. */
  lemma {:induction false} FlattenLength(entries: seq<Entry>)
    ensures |Flatten(entries)| == TotalAlerts(entries)
    decreases |entries|
  {
    if |entries| > 0 {
      FlattenLength(entries[..|entries| - 1]);
    }
  }

  /**
   * Ordering: alert j of entry i sits after all alerts of the earlier entries,
   * at offset j among them, tagged with entry i's repository.
   */
  lemma {:induction false} FlattenAt(entries: seq<Entry>, i: nat, j: nat)
    requires i < |entries| && j < |entries[i].alerts|
    ensures TotalAlerts(entries[..i]) + j < |Flatten(entries)|
    ensures Flatten(entries)[TotalAlerts(entries[..i]) + j] == Tagged(entries[i].repo, entries[i].alerts[j])
  {
    var before, tags, after := Flatten(entries[..i]), TagAll(entries[i]), Flatten(entries[i + 1..]);
    FlattenSplit(entries, i);
    FlattenLength(entries[..i]);
    assert (before + tags + after)[|before| + j] == tags[j];
  }

  /** Every alert of every entry has all the keys clean_alert reads. */
  predicate AllComplete(entries: seq<Entry>) {
    forall i, j | 0 <= i < |entries| && 0 <= j < |entries[i].alerts| :: Complete(entries[i].alerts[j])
  }

  lemma {:induction false} FlattenComplete(entries: seq<Entry>)
    requires AllComplete(entries)
    ensures forall k | 0 <= k < |Flatten(entries)| :: Complete(Flatten(entries)[k].alert)
    decreases |entries|
  {
    if |entries| > 0 {
      var m := |entries| - 1;
      assert forall i | 0 <= i < m :: entries[..m][i] == entries[i];
      FlattenComplete(entries[..m]);
      assert forall k | 0 <= k < |TagAll(entries[m])| :: TagAll(entries[m])[k].alert == entries[m].alerts[k];
    }
  }

  /** Alert j of entry i has its clean row at its entry-then-alert position in `rows`. */
  predicate RowInPlace(entries: seq<Entry>, rows: seq<Row>, i: nat, j: nat)
    requires i < |entries| && j < |entries[i].alerts|
  {
    && TotalAlerts(entries[..i]) + j < |rows|
    && Success(rows[TotalAlerts(entries[..i]) + j]) == CleanAlert(entries[i].repo, entries[i].alerts[j])
  }

  /**
   * With every alert complete, the report has one data row per alert
   * (1 + the number of alerts rows in all, with the header), and the row of
   * alert j of entry i is its clean_alert row, placed after the rows of all
   * earlier entries.
   */
  lemma {:induction false} CompleteReport(entries: seq<Entry>)
    requires AllComplete(entries)
    ensures Emit(Flatten(entries)).failure.None?
    ensures |[HEADER_ROW] + Emit(Flatten(entries)).rows| == 1 + TotalAlerts(entries)
    ensures forall i: nat, j: nat | i < |entries| && j < |entries[i].alerts| ::
              RowInPlace(entries, Emit(Flatten(entries)).rows, i, j)
  {
    FlattenComplete(entries);
    EmitSpec(Flatten(entries));
    FlattenLength(entries);
    forall i: nat, j: nat | i < |entries| && j < |entries[i].alerts|
      ensures RowInPlace(entries, Emit(Flatten(entries)).rows, i, j)
    {
      CompleteRowInPlace(entries, i, j);
    }
  }

  /** One alert's part of CompleteReport. */
  lemma {:induction false} CompleteRowInPlace(entries: seq<Entry>, i: nat, j: nat)
    requires AllComplete(entries)
    requires i < |entries| && j < |entries[i].alerts|
    ensures RowInPlace(entries, Emit(Flatten(entries)).rows, i, j)
  {
    var ts := Flatten(entries);
    var k := TotalAlerts(entries[..i]) + j;
    FlattenComplete(entries);
    FlattenAt(entries, i, j);
    EmitSpec(ts);
    assert ts[k] == Tagged(entries[i].repo, entries[i].alerts[j]);
    assert k < |Emit(ts).rows|;
    assert CleanAlert(ts[k].repo, ts[k].alert) == Success(Emit(ts).rows[k]);
  }

  /** The alerts visited before alert j of entry i. */
  function Visited(entries: seq<Entry>, i: nat, j: nat): seq<Tagged>
    requires i < |entries| && j <= |entries[i].alerts|
  {
    Flatten(entries[..i]) + TagAll(entries[i])[..j]
  }

  /** Visiting alert j of entry i extends the visited alerts by that one alert. */
  lemma {:induction false} VisitNext(entries: seq<Entry>, i: nat, j: nat)
    requires i < |entries| && j < |entries[i].alerts|
    ensures Visited(entries, i, j + 1) == Visited(entries, i, j) + [Tagged(entries[i].repo, entries[i].alerts[j])]
    ensures Emit(Visited(entries, i, j + 1)) == EmitStep(Emit(Visited(entries, i, j)), Tagged(entries[i].repo, entries[i].alerts[j]))
  {
    assert TagAll(entries[i])[..j + 1] == TagAll(entries[i])[..j] + [Tagged(entries[i].repo, entries[i].alerts[j])];
    var v := Visited(entries, i, j + 1);
    assert v[..|v| - 1] == Visited(entries, i, j);
  }

  /** Finishing entry i's alerts is the same as having visited entries[..i + 1]. */
  lemma {:induction false} VisitedEntry(entries: seq<Entry>, i: nat)
    requires i < |entries|
    ensures Visited(entries, i, 0) == Flatten(entries[..i])
    ensures Visited(entries, i, |entries[i].alerts|) == Flatten(entries[..i + 1])
  {
    assert entries[..i + 1][..i] == entries[..i];
    assert TagAll(entries[i])[..|entries[i].alerts|] == TagAll(entries[i]);
    assert TagAll(entries[i])[..0] == [];
  }

  /** The alerts of all entries split around entry i. */
  lemma {:induction false} FlattenSplit(entries: seq<Entry>, i: nat)
    requires i < |entries|
    ensures Flatten(entries) == Flatten(entries[..i]) + TagAll(entries[i]) + Flatten(entries[i + 1..])
  {
    assert entries[..i + 1] + entries[i + 1..] == entries;
    FlattenAppend(entries[..i + 1], entries[i + 1..]);
    assert entries[..i + 1][..i] == entries[..i];
  }

  /** Moving the brackets of a four-part concatenation. */
  lemma Regroup<T>(w: seq<T>, x: seq<T>, y: seq<T>, z: seq<T>)
    ensures w + (x + y) + z == (w + x) + (y + z)
  {
  }

  /** A failure at alert j of entry i is the outcome of the whole loop. */
  lemma {:induction false} FailureEndsReport(entries: seq<Entry>, i: nat, j: nat)
    requires i < |entries| && j < |entries[i].alerts|
    requires Emit(Visited(entries, i, j + 1)).failure.Some?
    ensures Emit(Flatten(entries)) == Emit(Visited(entries, i, j + 1))
  {
    var tags := TagAll(entries[i]);
    var rest := tags[j + 1..] + Flatten(entries[i + 1..]);
    var before, after := Flatten(entries[..i]), Flatten(entries[i + 1..]);
    FlattenSplit(entries, i);
    assert tags == tags[..j + 1] + tags[j + 1..];
    assert Visited(entries, i, j + 1) == before + tags[..j + 1];
    Regroup(before, tags[..j + 1], tags[j + 1..], after);
    EmitFailureSticks(Visited(entries, i, j + 1), rest);
  }

  /**
   * The row loop of main (`writer.writerow` calls), returning the rows the
   * file receives and the key whose absence raised, if any.
   */
  method WriteReport(entries: seq<Entry>) returns (rows: seq<Row>, failure: Option<Key>)
    ensures rows == [HEADER_ROW] + Emit(Flatten(entries)).rows
    ensures failure == Emit(Flatten(entries)).failure
  {
    rows := [HEADER_ROW];
    failure := None;
    for i := 0 to |entries|
      invariant |rows| >= 1 && rows[0] == HEADER_ROW
      invariant Emit(Flatten(entries[..i])) == Emitted(rows[1..], None)
    {
      var entry := entries[i];
      VisitedEntry(entries, i);
      for j := 0 to |entry.alerts|
        invariant |rows| >= 1 && rows[0] == HEADER_ROW
        invariant Emit(Visited(entries, i, j)) == Emitted(rows[1..], None)
      {
        VisitNext(entries, i, j);
        match CleanAlert(entry.repo, entry.alerts[j])
        case Failure(key) =>
          FailureEndsReport(entries, i, j);
          failure := Some(key);
          return;
        case Success(row) =>
          assert (rows + [row])[1..] == rows[1..] + [row];
          rows := rows + [row];
      }
    }
    assert entries[..|entries|] == entries;
    assert rows == [HEADER_ROW] + rows[1..];
  }
}
