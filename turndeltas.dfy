/**
 * The parts of a turn's reduction that the current hook and the older
 * single-file app share line for line: summing the numeric stat deltas,
 * generating the HUD lines, and keeping the six most recent HUD lines.
 */
module TurnDeltas {
  import opened Wrappers
  import opened Text
  import opened Reply

  /** How many HUD lines the history keeps (`slice(0, 6)`). */
  const HistoryLimit := 6

  const GainPrefix := "새 아이템 획득: "
  const LossPrefix := "아이템 잃음: "

  /** What one entry adds to `stat`'s total: its numeric `delta` when `d.stat === stat`, else nothing. */
  function Contribution(d: Delta, stat: string): int {
    if d.amount.Some? && d.stat == Some(stat) then d.amount.value else 0
  }

  /** The total change of `stat` over the entries, in order. */
  function SumOf(ds: seq<Delta>, stat: string): int {
    if |ds| == 0 then 0 else SumOf(ds[..|ds| - 1], stat) + Contribution(ds[|ds| - 1], stat)
  }

  /** Deltas for the same stat in one payload accumulate: the total over a concatenation is the sum of the totals. */
  lemma {:induction false} SumOfAppend(a: seq<Delta>, b: seq<Delta>, stat: string)
    ensures SumOf(a + b, stat) == SumOf(a, stat) + SumOf(b, stat)
  {
    if |b| > 0 {
      assert (a + b)[..|a + b| - 1] == a + b[..|b| - 1];
      SumOfAppend(a, b[..|b| - 1], stat);
    } else {
      assert a + b == a;
    }
  }

  /** Entries with a non-numeric `delta`, or for another stat, change nothing. */
  lemma {:induction false} SumOfIgnored(ds: seq<Delta>, stat: string)
    requires forall i :: 0 <= i < |ds| ==> ds[i].amount.None? || ds[i].stat != Some(stat)
    ensures SumOf(ds, stat) == 0
  {
    if |ds| > 0 {
      SumOfIgnored(ds[..|ds| - 1], stat);
    }
  }

  /** The `for (const d of deltas)` loop of `applyDeltasAndItems`. */
  method SumDeltas(ds: seq<Delta>) returns (dHp: int, dAtk: int, dMp: int)
    ensures dHp == SumOf(ds, "hp") && dAtk == SumOf(ds, "atk") && dMp == SumOf(ds, "mp")
  {
    dHp, dAtk, dMp := 0, 0, 0;
    for i := 0 to |ds|
      invariant dHp == SumOf(ds[..i], "hp")
      invariant dAtk == SumOf(ds[..i], "atk")
      invariant dMp == SumOf(ds[..i], "mp")
    {
      assert ds[..i + 1][..i] == ds[..i];
      var d := ds[i];
      if d.amount.Some? {
        if d.stat == Some("hp") { dHp := dHp + d.amount.value; }
        if d.stat == Some("atk") { dAtk := dAtk + d.amount.value; }
        if d.stat == Some("mp") { dMp := dMp + d.amount.value; }
      }
    }
    assert ds[..|ds|] == ds;
  }

  /** ` (reason)` when the reason is a non-empty string. */
  function ReasonSuffix(reason: Option<string>): string {
    if reason.Some? && reason.value != "" then " (" + reason.value + ")" else ""
  }

  /** The HUD line of one entry: present exactly when its `delta` is a non-zero number. */
  function DeltaNote(d: Delta): (r: Option<string>)
    ensures r.Some? <==> d.amount.Some? && d.amount.value != 0
  {
    if d.amount.Some? && d.amount.value != 0 then
      var n := d.amount.value;
      Some(Upper(d.stat.GetOr("")) + " " + (if n > 0 then "+" else "") + IntToString(n) + ReasonSuffix(d.reason))
    else None
  }

  function DeltaNotes(ds: seq<Delta>): seq<string> {
    if |ds| == 0 then []
    else
      var init := DeltaNotes(ds[..|ds| - 1]);
      match DeltaNote(ds[|ds| - 1])
      case Some(note) => init + [note]
      case None => init
  }

  /** One line per non-zero numeric delta, in order: the lines of a concatenation are the concatenated lines. */
  lemma {:induction false} DeltaNotesAppend(a: seq<Delta>, b: seq<Delta>)
    ensures DeltaNotes(a + b) == DeltaNotes(a) + DeltaNotes(b)
  {
    if |b| > 0 {
      assert (a + b)[..|a + b| - 1] == a + b[..|b| - 1];
      DeltaNotesAppend(a, b[..|b| - 1]);
    } else {
      assert a + b == a;
    }
  }

  /** Entries without a non-zero numeric `delta` produce no line. */
  lemma {:induction false} DeltaNotesSilent(ds: seq<Delta>)
    requires forall i :: 0 <= i < |ds| ==> ds[i].amount.None? || ds[i].amount.value == 0
    ensures DeltaNotes(ds) == []
  {
    if |ds| > 0 {
      DeltaNotesSilent(ds[..|ds| - 1]);
    }
  }

  function ItemNotes(prefix: string, names: seq<string>): (r: seq<string>)
    ensures |r| == |names|
  {
    if |names| == 0 then [] else ItemNotes(prefix, names[..|names| - 1]) + [prefix + names[|names| - 1]]
  }

  /** One line per name, the prefix followed by the name, in order. */
  lemma {:induction false} ItemNotesAt(prefix: string, names: seq<string>, i: nat)
    requires i < |names|
    ensures ItemNotes(prefix, names)[i] == prefix + names[i]
  {
    if i < |names| - 1 {
      ItemNotesAt(prefix, names[..|names| - 1], i);
    }
  }

  /** `generateHudNotes`: the delta lines, then one per added item, then one per removed item. */
  function HudNotes(ds: seq<Delta>, adds: seq<string>, removes: seq<string>): seq<string> {
    DeltaNotes(ds) + ItemNotes(GainPrefix, adds) + ItemNotes(LossPrefix, removes)
  }

  /** The three `forEach` loops of `generateHudNotes`, each pushing onto `notes`. */
  method GenerateHudNotes(ds: seq<Delta>, adds: seq<string>, removes: seq<string>) returns (notes: seq<string>)
    ensures notes == HudNotes(ds, adds, removes)
    ensures |notes| == |DeltaNotes(ds)| + |adds| + |removes|
  {
    notes := [];
    for i := 0 to |ds|
      invariant notes == DeltaNotes(ds[..i])
    {
      assert ds[..i + 1][..i] == ds[..i];
      var d := ds[i];
      if d.amount.Some? && d.amount.value != 0 {
        var n := d.amount.value;
        var sign := if n > 0 then "+" else "";
        notes := notes + [Upper(d.stat.GetOr("")) + " " + sign + IntToString(n) + ReasonSuffix(d.reason)];
      }
    }
    assert ds[..|ds|] == ds;
    ghost var lines := notes;
    for i := 0 to |adds|
      invariant notes == lines + ItemNotes(GainPrefix, adds[..i])
    {
      assert adds[..i + 1][..i] == adds[..i];
      notes := notes + [GainPrefix + adds[i]];
    }
    assert adds[..|adds|] == adds;
    lines := notes;
    for i := 0 to |removes|
      invariant notes == lines + ItemNotes(LossPrefix, removes[..i])
    {
      assert removes[..i + 1][..i] == removes[..i];
      notes := notes + [LossPrefix + removes[i]];
    }
    assert removes[..|removes|] == removes;
  }

  /** `xs.slice(0, 6)`: the first six lines, or all of them. */
  function Cap(xs: seq<string>): (r: seq<string>)
    ensures |r| <= HistoryLimit
    ensures |r| == if |xs| < HistoryLimit then |xs| else HistoryLimit
    ensures r == xs[..|r|]
  {
    if |xs| <= HistoryLimit then xs else xs[..HistoryLimit]
  }

  /** Prepending to a capped history and capping again is the same as capping once. */
  lemma CapPrepend(front: seq<string>, xs: seq<string>)
    ensures Cap(front + Cap(xs)) == Cap(front + xs)
  {
    var a, b := front + Cap(xs), front + xs;
    assert forall i :: 0 <= i < |Cap(a)| ==> Cap(a)[i] == Cap(b)[i];
  }
}
