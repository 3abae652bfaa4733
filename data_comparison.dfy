/** The dataset-comparison selection: at most four datasets, each id at
    most once, with the comparison actions and results shown once two are
    selected. */
module DataComparison {

  datatype Dataset = Dataset(id: string, name: string, technique: string, uploadedAt: string, rowCount: int)

  datatype ComparisonMode = Overlay | SideBySide

  const MaxSelected := 4

  /** `selectedDatasets.find(d => d.id === id)` finds something. */
  predicate HasId(selected: seq<Dataset>, id: string) {
    exists i :: 0 <= i < |selected| && selected[i].id == id
  }

  /** The selection after `addDataset(d)`. */
  function Added(selected: seq<Dataset>, d: Dataset): seq<Dataset> {
    if |selected| < MaxSelected && !HasId(selected, d.id) then selected + [d] else selected
  }

  /** `selectedDatasets.filter(d => d.id !== id)`. */
  function WithoutId(selected: seq<Dataset>, id: string): (r: seq<Dataset>)
    ensures |r| <= |selected|
    decreases |selected|
  {
    if |selected| == 0 then []
    else
      var rest := WithoutId(selected[..|selected| - 1], id);
      var last := selected[|selected| - 1];
      if last.id == id then rest else rest + [last]
  }

  /** At most four datasets, no id twice. */
  predicate Valid(selected: seq<Dataset>) {
    |selected| <= MaxSelected
    && forall i, j :: 0 <= i < j < |selected| ==> selected[i].id != selected[j].id
  }

  /** The comparison buttons and the results card are shown. */
  predicate ShowsComparison(selected: seq<Dataset>) {
    |selected| >= 2
  }

  /** `addDataset` appends exactly when there is room and the id is new. */
  lemma AddIff(selected: seq<Dataset>, d: Dataset)
    ensures Added(selected, d) != selected <==> |selected| < MaxSelected && !HasId(selected, d.id)
    ensures Added(selected, d) != selected ==> Added(selected, d) == selected + [d]
  {
    if |selected| < MaxSelected && !HasId(selected, d.id) {
      assert |Added(selected, d)| == |selected| + 1;
    }
  }

  lemma AddKeepsValid(selected: seq<Dataset>, d: Dataset)
    requires Valid(selected)
    ensures Valid(Added(selected, d))
  {
    if |selected| < MaxSelected && !HasId(selected, d.id) {
      var r := selected + [d];
      forall i, j | 0 <= i < j < |r| ensures r[i].id != r[j].id {
        if j == |selected| {
          assert r[i] == selected[i];
        }
      }
    }
  }

  /** Removal drops every dataset with that id and keeps the rest. */
  lemma {:induction false} WithoutIdMembers(selected: seq<Dataset>, id: string, d: Dataset)
    ensures d in WithoutId(selected, id) <==> d in selected && d.id != id
    decreases |selected|
  {
    if |selected| > 0 {
      var init := selected[..|selected| - 1];
      WithoutIdMembers(init, id, d);
      assert selected == init + [selected[|selected| - 1]];
    }
  }

  /** Removal keeps the others in their order: it works piece by piece. */
  lemma {:induction false} WithoutIdAppend(a: seq<Dataset>, b: seq<Dataset>, id: string)
    ensures WithoutId(a + b, id) == WithoutId(a, id) + WithoutId(b, id)
    decreases |b|
  {
    if |b| == 0 {
      assert a + b == a;
    } else {
      assert (a + b)[..|a + b| - 1] == a + b[..|b| - 1];
      WithoutIdAppend(a, b[..|b| - 1], id);
    }
  }

  lemma {:induction false} RemoveKeepsValid(selected: seq<Dataset>, id: string)
    requires Valid(selected)
    ensures Valid(WithoutId(selected, id))
    decreases |selected|
  {
    if |selected| > 0 {
      var init, last := selected[..|selected| - 1], selected[|selected| - 1];
      RemoveKeepsValid(init, id);
      var rest := WithoutId(init, id);
      if last.id != id {
        forall i, j | 0 <= i < j < |rest| + 1
          ensures (rest + [last])[i].id != (rest + [last])[j].id
        {
          if j == |rest| {
            WithoutIdMembers(init, id, rest[i]);
            var k :| 0 <= k < |init| && init[k] == rest[i];
            assert selected[k] == init[k];
            assert (rest + [last])[i] == rest[i];
          }
        }
      }
    }
  }

  /** A fifth dataset is never taken, and adding a selected id twice
      changes nothing. */
  lemma AddRefused(selected: seq<Dataset>, d: Dataset)
    requires |selected| >= MaxSelected || HasId(selected, d.id)
    ensures Added(selected, d) == selected
  {
  }

  /** From an empty selection, results appear with the second distinct
      dataset and not before. */
  lemma ResultsNeedTwo(a: Dataset, b: Dataset)
    ensures !ShowsComparison(Added([], a))
    ensures a.id != b.id ==> ShowsComparison(Added(Added([], a), b))
    ensures a.id == b.id ==> !ShowsComparison(Added(Added([], a), b))
  {
    assert Added([], a) == [a];
    if a.id == b.id {
      assert [a][0].id == b.id;
    }
  }

  class Comparison {
    var selectedDatasets: seq<Dataset>
    var comparisonMode: ComparisonMode

    constructor ()
      ensures selectedDatasets == [] && comparisonMode == Overlay
    {
      selectedDatasets := [];
      comparisonMode := Overlay;
    }

    method AddDataset(dataset: Dataset)
      modifies this
      ensures selectedDatasets == Added(old(selectedDatasets), dataset)
      ensures comparisonMode == old(comparisonMode)
    {
      if |selectedDatasets| < MaxSelected && !HasId(selectedDatasets, dataset.id) {
        selectedDatasets := selectedDatasets + [dataset];
      }
    }

    method RemoveDataset(id: string)
      modifies this
      ensures selectedDatasets == WithoutId(old(selectedDatasets), id)
      ensures comparisonMode == old(comparisonMode)
    {
      selectedDatasets := WithoutId(selectedDatasets, id);
    }

    method SetComparisonMode(mode: ComparisonMode)
      modifies this
      ensures comparisonMode == mode && selectedDatasets == old(selectedDatasets)
    {
      comparisonMode := mode;
    }
  }
}
