/**
 * The category options the client offers for a transaction type: the
 * income or expense options, then "other", which is always offered.
 */
module Categories {
  import Models

  const IncomeCategories: seq<string> := ["earned", "passive", "porftolio"]
  const ExpenseCategories: seq<string> :=
    ["entertainment", "vehicle", "housing", "transportation", "shopping", "financial", "food"]

  /** The option values of the category select for the chosen type, in display order. */
  function CategoryOptions(kind: string): (opts: seq<string>)
    ensures |opts| >= 1 && opts[|opts| - 1] == "other"
    ensures forall v :: v in opts <==>
      v == "other" || (kind == "income" && v in IncomeCategories) || (kind == "expense" && v in ExpenseCategories)
  {
    (if kind == "income" then IncomeCategories else [])
    + (if kind == "expense" then ExpenseCategories else [])
    + ["other"]
  }

  /** No option value is offered twice. */
  lemma CategoryOptionsDistinct(kind: string)
    ensures forall i, j :: 0 <= i < j < |CategoryOptions(kind)| ==> CategoryOptions(kind)[i] != CategoryOptions(kind)[j]
  {
  }

  /** The income and expense options have only "other" in common. */
  lemma OptionsOverlapOnlyInOther(v: string)
    requires v in CategoryOptions("income") && v in CategoryOptions("expense")
    ensures v == "other"
  {
  }

  /** Only "entertainment" and "other" of the offered values are on the declared category list. */
  lemma OfferedCategoriesAgainstDeclared(kind: string, v: string)
    requires v in CategoryOptions(kind)
    ensures Models.IsChoice(Models.CategoryChoices, v) <==> v == "entertainment" || v == "other"
  {
    assert Models.ParseCategory(v).Some? <==> Models.IsChoice(Models.CategoryChoices, v);
  }

  /** The declared categories "groceries" and "gas" are never offered. */
  lemma DeclaredButNeverOffered(kind: string)
    ensures "groceries" !in CategoryOptions(kind) && "gas" !in CategoryOptions(kind)
    ensures Models.IsChoice(Models.CategoryChoices, "groceries") && Models.IsChoice(Models.CategoryChoices, "gas")
  {
    assert Models.CategoryChoices[0].0 == "groceries" && Models.CategoryChoices[2].0 == "gas";
  }
}
