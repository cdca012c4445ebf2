/** The ingredient tables: a group's vocabulary, reused across meals, and each
    meal's ingredients in entry order. Models `_resolve_ingredients`,
    `_set_meal_ingredients` and `_item_ingredients` of app/routes/library.py. */
module IngredientStore {
  import opened Prelude
  import opened Ingredients

  type GroupId = nat
  type MealId = nat
  type IngredientId = nat

  datatype Ingredient = Ingredient(group: GroupId, name: string)

  /** One name, one row per group. */
  ghost predicate Unique(rows: map<IngredientId, Ingredient>) {
    forall i, j | i in rows && j in rows && rows[i] == rows[j] :: i == j
  }

  /** The list of rows stands for a list of names of one group. */
  ghost predicate Stands(rows: map<IngredientId, Ingredient>, group: GroupId, ids: seq<IngredientId>,
                         names: seq<string>)
  {
    |ids| == |names| && forall k | 0 <= k < |ids| :: ids[k] in rows && rows[ids[k]] == Ingredient(group, names[k])
  }

  function IdsOf(meals: map<MealId, seq<IngredientId>>, meal: MealId): seq<IngredientId> {
    if meal in meals then meals[meal] else []
  }

  function NamesOf(rows: map<IngredientId, Ingredient>, ids: seq<IngredientId>): seq<string>
    requires forall k | 0 <= k < |ids| :: ids[k] in rows
  {
    seq(|ids|, k requires 0 <= k < |ids| && ids[k] in rows => rows[ids[k]].name)
  }

  ghost predicate RowsOk(rows: map<IngredientId, Ingredient>, nextId: nat) {
    Unique(rows) && forall i | i in rows :: i < nextId
  }

  ghost predicate MealsOk(fold: Folding, rows: map<IngredientId, Ingredient>, meals: map<MealId, seq<IngredientId>>) {
    forall m | m in meals ::
      && NoRepeats(meals[m])
      && (forall k | 0 <= k < |meals[m]| :: meals[m][k] in rows)
      && Clean(fold, NamesOf(rows, meals[m]))
  }

  /** Old rows stay; new ones are names of the list the group did not have. */
  ghost predicate Grown(before: map<IngredientId, Ingredient>, after: map<IngredientId, Ingredient>, group: GroupId,
                        names: seq<string>)
  {
    && (forall i | i in before :: i in after && after[i] == before[i])
    && (forall i | i in after && i !in before ::
          after[i].group == group && after[i].name in names && forall j | j in before :: before[j] != after[i])
  }

  lemma GrownMeals(fold: Folding, before: map<IngredientId, Ingredient>, after: map<IngredientId, Ingredient>,
                   meals: map<MealId, seq<IngredientId>>)
    requires MealsOk(fold, before, meals) && forall i | i in before :: i in after && after[i] == before[i]
    ensures MealsOk(fold, after, meals)
    ensures forall m :: NamesOf(after, IdsOf(meals, m)) == NamesOf(before, IdsOf(meals, m))
  {
    hide Clean;
    forall m ensures NamesOf(after, IdsOf(meals, m)) == NamesOf(before, IdsOf(meals, m)) {
    }
    forall m | m in meals ensures Clean(fold, NamesOf(after, meals[m])) {
      assert NamesOf(after, IdsOf(meals, m)) == NamesOf(before, IdsOf(meals, m));
    }
  }

  lemma RowAdded(before: map<IngredientId, Ingredient>, rows: map<IngredientId, Ingredient>, nextId: nat,
                 group: GroupId, names: seq<string>, name: string)
    requires RowsOk(rows, nextId) && Grown(before, rows, group, names) && name in names
    requires forall i | i in rows :: rows[i] != Ingredient(group, name)
    ensures RowsOk(rows[nextId := Ingredient(group, name)], nextId + 1)
    ensures Grown(before, rows[nextId := Ingredient(group, name)], group, names)
  {
  }

  class Vocabulary {
    const fold: Folding
    var rows: map<IngredientId, Ingredient>
    var nextId: nat
    /** A meal's ingredient rows, listed by position. */
    var meals: map<MealId, seq<IngredientId>>

    ghost predicate Valid()
      reads this
    {
      FoldingLaws(fold) && RowsOk(rows, nextId) && MealsOk(fold, rows, meals)
    }

    constructor (fold: Folding)
      requires FoldingLaws(fold)
      ensures Valid() && this.fold == fold && rows == map[] && meals == map[]
    {
      this.fold := fold;
      rows, nextId, meals := map[], 0, map[];
    }

    /** The meal's ingredient names in entry order. */
    ghost function Listed(meal: MealId): seq<string>
      requires Valid()
      reads this
    {
      NamesOf(rows, IdsOf(meals, meal))
    }

    method ItemIngredients(meal: MealId) returns (names: seq<string>)
      requires Valid()
      ensures names == Listed(meal)
    {
      names := [];
      if meal in meals {
        for k := 0 to |meals[meal]|
          invariant names == Listed(meal)[..k]
        {
          names := names + [rows[meals[meal][k]].name];
        }
      }
    }

    /** Looks each name up in the group and adds a row for those it misses. Rows
        already there keep their ids and names. */
    method ResolveIngredients(group: GroupId, names: seq<string>) returns (resolved: seq<IngredientId>)
      requires RowsOk(rows, nextId)
      modifies this`rows, this`nextId
      ensures RowsOk(rows, nextId) && Grown(old(rows), rows, group, names)
      ensures Stands(rows, group, resolved, names)
    {
      hide RowsOk;
      resolved := [];
      for k := 0 to |names|
        invariant RowsOk(rows, nextId) && Grown(old(rows), rows, group, names)
        invariant Stands(rows, group, resolved, names[..k])
      {
        var wanted := Ingredient(group, names[k]);
        ghost var before := rows;
        var id: IngredientId;
        if i :| i in rows && rows[i] == wanted {
          id := i;
        } else {
          RowAdded(old(rows), rows, nextId, group, names, names[k]);
          NextIsNew(rows, nextId);
          id := nextId;
          hide Grown;
          rows := rows[id := wanted];
          nextId := nextId + 1;
        }
        StandsOnward(before, rows, group, resolved, names[..k], id, names[k]);
        resolved := resolved + [id];
        assert names[..k + 1] == names[..k] + [names[k]];
      }
      assert names[..|names|] == names;
    }

    /** Replaces a meal's ingredients: reading them back yields the cleaned list. */
    method SetMealIngredients(group: GroupId, meal: MealId, raw: seq<string>)
      requires Valid()
      modifies this
      ensures Valid() && Grown(old(rows), rows, group, Cleaned(fold, raw))
      ensures meal in meals && Stands(rows, group, meals[meal], Cleaned(fold, raw))
      ensures meals == old(meals)[meal := meals[meal]]
      ensures Listed(meal) == Cleaned(fold, raw)
      ensures forall m | m != meal :: Listed(m) == old(Listed(m))
    {
      hide Cleaned, Clean, FoldingLaws, RowsOk, MealsOk;
      var names := CleanIngredientNames(fold, raw);
      CleanedIsClean(fold, raw);
      var resolved := ResolveIngredients(group, names);
      GrownMeals(fold, old(rows), rows, meals);
      MealSet(fold, rows, meals, meal, group, resolved, names);
      meals := meals[meal := resolved];
    }

    /** Opening a meal's edit form and saving it untouched, whatever line ends the
        browser sends, changes no row, no vocabulary and no order. */
    method ResaveForm(group: GroupId, meal: MealId, end: string)
      requires Valid() && (end == "\n" || end == "\r\n")
      requires Stands(rows, group, IdsOf(meals, meal), Listed(meal))
      modifies this
      ensures Valid() && rows == old(rows)
      ensures forall m :: IdsOf(meals, m) == old(IdsOf(meals, m))
    {
      var names := ItemIngredients(meal);
      ghost var ids := IdsOf(meals, meal);
      var posted := TrimLineEnds(JoinLines(names, end));
      ListedIsClean(meal);
      FormRoundTrip(fold, names, end);
      hide FoldingLaws, RowsOk, MealsOk, Grown, Stands, Clean, Cleaned, NamesOf, SplitLines, JoinLines, TrimLineEnds;
      SetMealIngredients(group, meal, SplitLines(posted));
      Reentered(old(rows), rows, nextId, group, ids, meals[meal], names);
    }

    lemma ListedIsClean(meal: MealId)
      requires Valid()
      ensures Clean(fold, Listed(meal))
    {
    }
  }

  /** Names that already have their rows are given those very rows. */
  lemma Reentered(before: map<IngredientId, Ingredient>, after: map<IngredientId, Ingredient>, nextId: nat,
                  group: GroupId,
                  ids: seq<IngredientId>, resolved: seq<IngredientId>, names: seq<string>)
    requires RowsOk(after, nextId) && Grown(before, after, group, names)
    requires Stands(before, group, ids, names) && Stands(after, group, resolved, names)
    ensures after == before && resolved == ids
  {
    forall n | n in names ensures exists i :: i in before && before[i] == Ingredient(group, n) {
      var k :| 0 <= k < |names| && names[k] == n;
      assert before[ids[k]] == Ingredient(group, n);
    }
    forall k | 0 <= k < |ids| ensures resolved[k] == ids[k] {
      assert after[ids[k]] == after[resolved[k]];
    }
  }

  lemma NextIsNew(rows: map<IngredientId, Ingredient>, nextId: nat)
    requires RowsOk(rows, nextId)
    ensures nextId !in rows
  {
  }

  lemma StandsOnward(before: map<IngredientId, Ingredient>, after: map<IngredientId, Ingredient>, group: GroupId,
                     ids: seq<IngredientId>, names: seq<string>, id: IngredientId, name: string)
    requires Stands(before, group, ids, names) && (forall i | i in before :: i in after && after[i] == before[i])
    requires id in after && after[id] == Ingredient(group, name)
    ensures Stands(after, group, ids + [id], names + [name])
  {
  }

  lemma MealSet(fold: Folding, rows: map<IngredientId, Ingredient>, meals: map<MealId, seq<IngredientId>>, meal: MealId,
                group: GroupId, ids: seq<IngredientId>, names: seq<string>)
    requires MealsOk(fold, rows, meals) && Stands(rows, group, ids, names) && Clean(fold, names)
    ensures MealsOk(fold, rows, meals[meal := ids])
    ensures NamesOf(rows, ids) == names
  {
    hide Canonical;
    assert NamesOf(rows, ids) == names;
  }
}
