/** The iris classifier: the flowers are grouped by species, sixteen tasks each
    give every flower one vote for a class, the tasks' histograms are merged as
    they come back, and each flower's vote is the class with the most votes. */

module Iris {
  import opened Common

  /** The three species. */
  const Classes: nat := 3

  /** Slots per species in the grouped measures. */
  const Slots: nat := 50

  /** Rows of a histogram: one per flower of the data set. */
  const Flowers: nat := 150

  /** Tasks launched per classifier. */
  const Tasks: nat := 16

  /** A flower of the data set: its four measures and its species name. */
  datatype Flower = Flower(measures: seq<real>, species: string)

  /** `Labels[name]`: the species index of a name. A name missing from the
      map reads as 0, the map's zero value. */
  function LabelOf(name: string): (species: nat)
    ensures species < Classes
    ensures species == 1 <==> name == "Iris-versicolor"
    ensures species == 2 <==> name == "Iris-virginica"
  {
    if name == "Iris-versicolor" then 1 else if name == "Iris-virginica" then 2 else 0
  }

  // ---------------------------------------------------------------------
  // Grouping by species (iris.go:18-29)
  // ---------------------------------------------------------------------

  /** The measures of the flowers labelled `species`, in file order. */
  function Members(iris: seq<Flower>, species: nat): (m: seq<seq<real>>)
    ensures |m| <= |iris|
  {
    if |iris| == 0 then []
    else
      var last := iris[|iris| - 1];
      Members(iris[..|iris| - 1], species) + (if LabelOf(last.species) == species then [last.measures] else [])
  }

  /** The next flower joins the members when it has the species. */
  lemma MembersStep(iris: seq<Flower>, species: nat, j: nat)
    requires j < |iris|
    ensures Members(iris[..j + 1], species) ==
      Members(iris[..j], species) + if LabelOf(iris[j].species) == species then [iris[j].measures] else []
  {
    assert iris[..j + 1][..j] == iris[..j];
  }

  /** The members of a longer prefix include those of a shorter one. */
  lemma {:induction false} MembersGrow(iris: seq<Flower>, species: nat, n: nat)
    requires n <= |iris|
    ensures |Members(iris[..n], species)| <= |Members(iris, species)|
    decreases |iris|
  {
    if n < |iris| {
      var shorter := iris[..|iris| - 1];
      assert iris[..n] == shorter[..n];
      MembersGrow(shorter, species, n);
    } else {
      assert iris[..n] == iris;
    }
  }

  /** Every flower is counted under exactly one species. */
  lemma {:induction false} MembersPartition(iris: seq<Flower>)
    ensures |Members(iris, 0)| + |Members(iris, 1)| + |Members(iris, 2)| == |iris|
  {
    if |iris| > 0 {
      MembersPartition(iris[..|iris| - 1]);
    }
  }

  /** Fifty slots, the members first and empty slots after them. */
  function Filled(m: seq<seq<real>>): (row: seq<seq<real>>)
    requires |m| <= Slots
    ensures |row| == Slots
  {
    seq(Slots, k requires 0 <= k < Slots => if k < |m| then m[k] else [])
  }

  /** Appending the measures to the first empty slot files the next member. */
  lemma FilledStep(m: seq<seq<real>>, x: seq<real>)
    requires |m| < Slots
    ensures Filled(m)[|m| := Filled(m)[|m|] + x] == Filled(m + [x])
  {
    var before, after := Filled(m), Filled(m + [x]);
    assert before[|m|] + x == x;
    forall k | 0 <= k < Slots
      ensures before[|m| := x][k] == after[k]
    {
    }
  }

  /** Filing flower j, which has the species, into the next free slot. */
  lemma FileAdvance(iris: seq<Flower>, species: nat, j: nat, slots: seq<seq<real>>)
    requires j < |iris| && LabelOf(iris[j].species) == species
    requires |Members(iris[..j], species)| < Slots && slots == Filled(Members(iris[..j], species))
    ensures var index := |Members(iris[..j], species)|;
      index + 1 == |Members(iris[..j + 1], species)| &&
      slots[index := slots[index] + iris[j].measures] == Filled(Members(iris[..j + 1], species))
  {
    MembersStep(iris, species, j);
    FilledStep(Members(iris[..j], species), iris[j].measures);
  }

  /** The inner grouping loop for one species: slot k receives the measures
      of the k-th flower of that species. A 51st flower of the species
      indexes past the fifty slots, which is a run-time panic and gives None
      here. */
  method Collect(iris: seq<Flower>, species: nat) returns (row: Option<seq<seq<real>>>)
    ensures row.None? <==> |Members(iris, species)| > Slots
    ensures row.Some? ==> row.value == Filled(Members(iris, species))
  {
    var slots: seq<seq<real>> := Filled([]);
    var index := 0;
    for j := 0 to |iris|
      invariant index == |Members(iris[..j], species)| <= Slots
      invariant slots == Filled(Members(iris[..j], species))
    {
      if LabelOf(iris[j].species) == species {
        if index == Slots {
          MembersStep(iris, species, j);
          MembersGrow(iris, species, j + 1);
          return None;
        }
        FileAdvance(iris, species, j, slots);
        slots := slots[index := slots[index] + iris[j].measures];
        index := index + 1;
      } else {
        MembersStep(iris, species, j);
      }
    }
    assert iris[..|iris|] == iris;
    return Some(slots);
  }

  /** The grouping loops over the three species; an overflow stops them. */
  method Group(iris: seq<Flower>) returns (vectors: Option<seq<seq<seq<real>>>>)
    ensures vectors.None? <==> exists species :: 0 <= species < Classes && |Members(iris, species)| > Slots
    ensures vectors.Some? ==> |vectors.value| == Classes
    ensures vectors.Some? ==> forall species :: 0 <= species < Classes ==> vectors.value[species] == Filled(Members(iris, species))
  {
    var groups: seq<seq<seq<real>>> := [];
    for species := 0 to Classes
      invariant |groups| == species
      invariant forall l :: 0 <= l < species ==> |Members(iris, l)| <= Slots && groups[l] == Filled(Members(iris, l))
    {
      var row := Collect(iris, species);
      if row.None? {
        return None;
      }
      groups := groups + [row.value];
    }
    return Some(groups);
  }

  // ---------------------------------------------------------------------
  // One task's histogram and the merge (iris.go:52-104)
  // ---------------------------------------------------------------------

  /** One task's classification: a class per flower. */
  predicate Votes(choice: seq<nat>)
  {
    |choice| == Flowers && forall i :: 0 <= i < Flowers ==> choice[i] < Classes
  }

  /** Sixteen tasks' classifications. */
  predicate Rounds(choices: seq<seq<nat>>)
  {
    |choices| == Tasks && forall t :: 0 <= t < Tasks ==> Votes(choices[t])
  }

  /** `process`: flower i's row gets one vote, for the class the task chose. */
  method Process(choice: seq<nat>) returns (h: array2<nat>)
    requires Votes(choice)
    ensures fresh(h) && h.Length0 == Flowers && h.Length1 == Classes
    ensures forall i, k :: 0 <= i < Flowers && 0 <= k < Classes ==> h[i, k] == Bit(choice[i] == k)
  {
    h := new nat[Flowers, Classes]((_, _) => 0);
    for i := 0 to Flowers
      invariant forall i', k :: 0 <= i' < Flowers && 0 <= k < Classes ==>
        h[i', k] == if i' < i then Bit(choice[i'] == k) else 0
    {
      h[i, choice[i]] := h[i, choice[i]] + 1;
    }
  }

  /** The votes flower i got for class k from the tasks `done`. */
  function Count(done: seq<seq<nat>>, i: nat, k: nat): (n: nat)
    requires forall t :: 0 <= t < |done| ==> i < |done[t]|
    ensures n <= |done|
  {
    if |done| == 0 then 0 else Count(done[..|done| - 1], i, k) + Bit(done[|done| - 1][i] == k)
  }

  /** One more task adds its vote. */
  lemma CountStep(done: seq<seq<nat>>, n: nat, i: nat, k: nat)
    requires n < |done| && forall t :: 0 <= t < |done| ==> i < |done[t]|
    ensures Count(done[..n + 1], i, k) == Count(done[..n], i, k) + Bit(done[n][i] == k)
  {
    assert done[..n + 1][..n] == done[..n];
  }

  /** Each task votes once per flower: a row's counts sum to the number of tasks. */
  lemma {:induction false} RowTotal(done: seq<seq<nat>>, i: nat)
    requires forall t :: 0 <= t < |done| ==> i < |done[t]| && done[t][i] < Classes
    ensures Count(done, i, 0) + Count(done, i, 1) + Count(done, i, 2) == |done|
  {
    if |done| > 0 {
      RowTotal(done[..|done| - 1], i);
    }
  }

  /** The merged histogram of the tasks `done`. */
  function Merged(done: seq<seq<nat>>): (rows: seq<seq<nat>>)
    requires forall t :: 0 <= t < |done| ==> |done[t]| == Flowers
    ensures |rows| == Flowers && forall i :: 0 <= i < Flowers ==> |rows[i]| == Classes
  {
    seq(Flowers, i requires 0 <= i < Flowers => seq(Classes, k requires 0 <= k < Classes => Count(done, i, k)))
  }

  /** A histogram's rows as values. */
  function Rows(histogram: array2<nat>): (rows: seq<seq<nat>>)
    reads histogram
    requires histogram.Length0 == Flowers && histogram.Length1 == Classes
    ensures |rows| == Flowers && forall i :: 0 <= i < Flowers ==> |rows[i]| == Classes
  {
    seq(Flowers, i requires 0 <= i < Flowers reads histogram => RowOf(histogram, i))
  }

  /** Row i of a histogram. */
  function RowOf(histogram: array2<nat>, i: nat): (row: seq<nat>)
    reads histogram
    requires histogram.Length0 == Flowers && histogram.Length1 == Classes && i < Flowers
    ensures |row| == Classes && forall k :: 0 <= k < Classes ==> row[k] == histogram[i, k]
  {
    seq(Classes, k requires 0 <= k < Classes reads histogram => histogram[i, k])
  }

  /** The histogram holds the merged votes of the tasks `done`. */
  ghost predicate Tallied(histogram: array2<nat>, done: seq<seq<nat>>)
    reads histogram
  {
    histogram.Length0 == Flowers && histogram.Length1 == Classes &&
    (forall t :: 0 <= t < |done| ==> |done[t]| == Flowers) &&
    forall i, k :: 0 <= i < Flowers && 0 <= k < Classes ==> histogram[i, k] == Count(done, i, k)
  }

  /** The merge loops: every count of `h` is added to the same cell. */
  method Merge(histogram: array2<nat>, h: array2<nat>)
    requires histogram != h
    requires histogram.Length0 == h.Length0 == Flowers && histogram.Length1 == h.Length1 == Classes
    modifies histogram
    ensures forall i, k :: 0 <= i < Flowers && 0 <= k < Classes ==> histogram[i, k] == old(histogram[i, k]) + h[i, k]
  {
    for i := 0 to Flowers
      invariant forall i', k :: 0 <= i' < Flowers && 0 <= k < Classes ==>
        histogram[i', k] == old(histogram[i', k]) + if i' < i then h[i', k] else 0
    {
      for k := 0 to Classes
        invariant forall i', k' :: 0 <= i' < Flowers && 0 <= k' < Classes ==>
          histogram[i', k'] == old(histogram[i', k']) + if i' < i || (i' == i && k' < k) then h[i', k'] else 0
      {
        histogram[i, k] := histogram[i, k] + h[i, k];
      }
    }
  }

  /** Receiving task `n`'s histogram and merging it. */
  method Receive(histogram: array2<nat>, choices: seq<seq<nat>>, n: nat)
    requires Rounds(choices) && n < Tasks && Tallied(histogram, choices[..n])
    modifies histogram
    ensures Tallied(histogram, choices[..n + 1])
  {
    var h := Process(choices[n]);
    Merge(histogram, h);
    forall i, k | 0 <= i < Flowers && 0 <= k < Classes
      ensures histogram[i, k] == Count(choices[..n + 1], i, k)
    {
      CountStep(choices, n, i, k);
    }
  }

  /** The fan-out of one classifier: launch tasks while fewer than `cpus` are
      in flight, then receive one and launch the next until sixteen are
      launched, then receive the rest. Tasks are received in launch order;
      merging adds counts, so the order does not change the histogram. */
  method Classify(choices: seq<seq<nat>>, cpus: nat) returns (histogram: array2<nat>, launched: nat, merged: nat)
    requires cpus > 0 && Rounds(choices)
    ensures fresh(histogram) && histogram.Length0 == Flowers && histogram.Length1 == Classes
    ensures launched == merged == Tasks
    ensures Rows(histogram) == Merged(choices)
    ensures forall i :: 0 <= i < Flowers ==> histogram[i, 0] + histogram[i, 1] + histogram[i, 2] == Tasks
  {
    histogram := new nat[Flowers, Classes]((_, _) => 0);
    var flight := 0;
    launched, merged := 0, 0;
    while launched < Tasks && flight < cpus
      invariant merged == 0 && flight == launched <= Tasks && flight <= cpus
      invariant Tallied(histogram, choices[..merged])
    {
      launched, flight := launched + 1, flight + 1;
    }
    while launched < Tasks
      invariant merged + flight == launched <= Tasks && flight <= cpus
      invariant launched < Tasks ==> flight == cpus
      invariant Tallied(histogram, choices[..merged])
    {
      Receive(histogram, choices, merged);
      merged, flight := merged + 1, flight - 1;
      launched, flight := launched + 1, flight + 1;
    }
    var waiting := flight;
    for w := 0 to waiting
      invariant merged + waiting - w == launched == Tasks
      invariant Tallied(histogram, choices[..merged])
    {
      Receive(histogram, choices, merged);
      merged := merged + 1;
    }
    assert choices[..merged] == choices;
    forall i | 0 <= i < Flowers
      ensures histogram[i, 0] + histogram[i, 1] + histogram[i, 2] == Tasks
    {
      RowTotal(choices, i);
    }
    assert Rows(histogram) == Merged(choices) by {
      forall i | 0 <= i < Flowers
        ensures Rows(histogram)[i] == Merged(choices)[i]
      {
        assert forall k :: 0 <= k < Classes ==> Rows(histogram)[i][k] == Merged(choices)[i][k];
      }
    }
  }

  // ---------------------------------------------------------------------
  // The vote and the score (iris.go:106-117, 180-191)
  // ---------------------------------------------------------------------

  /** The argmax scan over a row: (index, max) starts at (0, 0) and moves to
      a count only when it is strictly larger. */
  function Scan(row: seq<nat>): (r: (nat, nat))
  {
    if |row| == 0 then (0, 0)
    else
      var prev := Scan(row[..|row| - 1]);
      if row[|row| - 1] > prev.1 then (|row| - 1, row[|row| - 1]) else prev
  }

  /** The scan picks the first index of the largest count; for an all-zero
      row that is index 0. */
  lemma {:induction false} ScanIsFirstMax(row: seq<nat>)
    requires |row| > 0
    ensures Scan(row).0 < |row| && row[Scan(row).0] == Scan(row).1
    ensures forall k :: 0 <= k < |row| ==> row[k] <= Scan(row).1
    ensures forall k :: 0 <= k < Scan(row).0 ==> row[k] < Scan(row).1
    ensures (forall k :: 0 <= k < |row| ==> row[k] == 0) ==> Scan(row).0 == 0
  {
    var n := |row| - 1;
    if n > 0 {
      ScanIsFirstMax(row[..n]);
    }
  }

  /** The inner argmax loop over row i of the histogram. */
  method Vote(histogram: array2<nat>, i: nat) returns (index: nat)
    requires histogram.Length0 == Flowers && histogram.Length1 == Classes && i < Flowers
    ensures index == Scan(RowOf(histogram, i)).0
  {
    ghost var row := RowOf(histogram, i);
    var max := 0;
    index := 0;
    for k := 0 to Classes
      invariant (index, max) == Scan(row[..k])
    {
      assert row[..k + 1][..k] == row[..k];
      if histogram[i, k] > max {
        max, index := histogram[i, k], k;
      }
    }
    assert row[..Classes] == row;
  }

  /** The flowers among `iris` whose voted class is their species. */
  function Correct(iris: seq<Flower>, rows: seq<seq<nat>>): (n: nat)
    requires |rows| == |iris|
    ensures n <= |iris|
  {
    if |iris| == 0 then 0
    else
      var last := |iris| - 1;
      Correct(iris[..last], rows[..last]) + Bit(LabelOf(iris[last].species) == Scan(rows[last]).0)
  }

  /** Every flower is classified correctly exactly when the count reaches the
      number of flowers. */
  lemma {:induction false} CorrectAll(iris: seq<Flower>, rows: seq<seq<nat>>)
    requires |rows| == |iris|
    ensures Correct(iris, rows) == |iris| <==>
      forall i :: 0 <= i < |iris| ==> LabelOf(iris[i].species) == Scan(rows[i]).0
  {
    if |iris| > 0 {
      var last := |iris| - 1;
      CorrectAll(iris[..last], rows[..last]);
      if forall i :: 0 <= i < |iris| ==> LabelOf(iris[i].species) == Scan(rows[i]).0 {
        assert forall i :: 0 <= i < last ==> LabelOf(iris[..last][i].species) == Scan(rows[..last][i]).0;
      }
    }
  }

  /** The scoring loop: count the flowers whose vote is their species. */
  method Score(iris: seq<Flower>, histogram: array2<nat>) returns (correct: nat)
    requires |iris| == Flowers && histogram.Length0 == Flowers && histogram.Length1 == Classes
    ensures correct == Correct(iris, Rows(histogram)) && correct <= |iris|
  {
    ghost var rows := Rows(histogram);
    correct := 0;
    for i := 0 to Flowers
      invariant correct == Correct(iris[..i], rows[..i])
    {
      assert iris[..i + 1][..i] == iris[..i] && rows[..i + 1][..i] == rows[..i];
      var index := Vote(histogram, i);
      if LabelOf(iris[i].species) == index {
        correct := correct + 1;
      }
    }
    assert iris[..Flowers] == iris && rows[..Flowers] == rows;
  }

  // ---------------------------------------------------------------------
  // The model (iris.go:16-194)
  // ---------------------------------------------------------------------

  /** What a run produces: the grouped measures and each classifier's score. */
  datatype Outcome = Outcome(vectors: seq<seq<seq<real>>>, first: nat, second: nat)

  /** `IrisModel()`: group the flowers, then run both classifiers, each as
      sixteen tasks whose per-flower classes `first` and `second` give. A
      grouping overflow stops the run. */
  method Model(iris: seq<Flower>, first: seq<seq<nat>>, second: seq<seq<nat>>, cpus: nat)
    returns (outcome: Option<Outcome>)
    requires |iris| == Flowers && cpus > 0 && Rounds(first) && Rounds(second)
    ensures outcome.None? <==> exists species :: 0 <= species < Classes && |Members(iris, species)| > Slots
    ensures outcome.Some? ==>
      |outcome.value.vectors| == Classes &&
      forall species :: 0 <= species < Classes ==> outcome.value.vectors[species] == Filled(Members(iris, species))
    ensures outcome.Some? ==>
      outcome.value.first == Correct(iris, Merged(first)) <= Flowers &&
      outcome.value.second == Correct(iris, Merged(second)) <= Flowers
  {
    var vectors := Group(iris);
    if vectors.None? {
      return None;
    }
    var histogram, launched, merged := Classify(first, cpus);
    var one := Score(iris, histogram);
    histogram, launched, merged := Classify(second, cpus);
    var two := Score(iris, histogram);
    return Some(Outcome(vectors.value, one, two));
  }
}
