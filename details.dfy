/**
 * The details panel: a month selector whose option values are
 * "<MonthName> <year>", and the transaction list fetched for the
 * selection. Selecting the empty option lists every transaction.
 */
module Details {
  import opened Wrappers
  import opened Strings
  import opened Http
  import TableRow

  /** An entry of `/list_months`: an English month name and a year. */
  datatype MonthEntry = MonthEntry(month: string, year: nat)

  const MonthNames: seq<string> := [
    "January", "February", "March", "April", "May", "June",
    "July", "August", "September", "October", "November", "December"]

  /** Position of `name` in `names`, if it is there. */
  function IndexOf(names: seq<string>, name: string): (r: Option<nat>)
    ensures r.Some? <==> name in names
    ensures r.Some? ==> r.value < |names| && names[r.value] == name
    decreases |names|
  {
    if names == [] then None
    else if names[0] == name then Some(0)
    else match IndexOf(names[1..], name)
      case None => None
      case Some(i) => Some(i + 1)
  }

  /** The month's number, 1 to 12, for a full English month name. */
  function MonthIndex(name: string): (r: Option<nat>)
    ensures r.Some? ==> 1 <= r.value <= 12 && MonthNames[r.value - 1] == name
  {
    match IndexOf(MonthNames, name)
    case None => None
    case Some(i) => Some(i + 1)
  }

  /** Only the twelve names have a number. */
  lemma MonthIndexDefined(name: string)
    ensures MonthIndex(name).Some? <==> name in MonthNames
  {
    assert IndexOf(MonthNames, name).Some? <==> name in MonthNames;
  }

  /** In a list without repetitions, the position of the i-th name is i. */
  lemma {:induction false} IndexOfDistinct(names: seq<string>, i: nat)
    requires i < |names|
    requires forall j, k :: 0 <= j < k < |names| ==> names[j] != names[k]
    ensures IndexOf(names, names[i]) == Some(i)
    decreases |names|
  {
    if i > 0 {
      assert names[0] != names[i];
      assert names[1..][i - 1] == names[i];
      IndexOfDistinct(names[1..], i - 1);
    }
  }

  /** The month numbers and the names correspond one to one. */
  lemma MonthIndexOfName(m: nat)
    requires 1 <= m <= 12
    ensures MonthIndex(MonthNames[m - 1]) == Some(m)
  {
    assert forall j, k :: 0 <= j < k < |MonthNames| ==> MonthNames[j] != MonthNames[k];
    IndexOfDistinct(MonthNames, m - 1);
  }

  /** The option value rendered for a month entry: `${month.month} ${month.year}`. */
  function OptionValue(e: MonthEntry): string
  {
    e.month + " " + NatToString(e.year)
  }

  /** The month number as the URL shows it; a name outside the table gives NaN. */
  function MonthNumberText(month: string): string
  {
    match MonthIndex(month)
    case Some(i) => NatToString(i)
    case None => "NaN"
  }

  /** The second word of the selection; destructuring a one-word split gives `undefined`. */
  function YearText(parts: seq<string>): string
  {
    if |parts| >= 2 then parts[1] else "undefined"
  }

  /** The fetch issued for a selection: all transactions, or those of the chosen month. */
  function Endpoint(selection: string): string
  {
    if selection == "" then "/list_all_transactions"
    else
      var parts := Split(selection, ' ');
      "/list_month_transactions/" + MonthNumberText(parts[0]) + "/" + YearText(parts)
  }

  /** An option built from a month entry splits back into the same month and year. */
  lemma OptionValueSplits(e: MonthEntry)
    requires ' ' !in e.month
    ensures Split(OptionValue(e), ' ') == [e.month, NatToString(e.year)]
  {
    var y := NatToString(e.year);
    forall i | 0 <= i < |y| ensures y[i] != ' ' {
      assert IsDigit(y[i]);
    }
    SplitAfterSeparator(e.month, ' ', y);
    SplitWithoutSeparator(y, ' ');
  }

  /** Selecting the option of a named month fetches that month's number and the year. */
  lemma MonthOptionEndpoint(e: MonthEntry, m: nat)
    requires 1 <= m <= 12 && e.month == MonthNames[m - 1]
    ensures Endpoint(OptionValue(e)) == "/list_month_transactions/" + NatToString(m) + "/" + NatToString(e.year)
  {
    assert ' ' !in e.month by {
      assert forall i :: 0 <= i < |MonthNames| ==> ' ' !in MonthNames[i];
    }
    OptionValueSplits(e);
    MonthIndexOfName(m);
  }

  /** A month name outside the table yields "NaN" as the month number. */
  lemma UnknownMonthEndpoint(e: MonthEntry)
    requires ' ' !in e.month && e.month !in MonthNames
    ensures Endpoint(OptionValue(e)) == "/list_month_transactions/" + "NaN" + "/" + NatToString(e.year)
  {
    var selection := OptionValue(e);
    var y := NatToString(e.year);
    OptionValueSplits(e);
    MonthIndexDefined(e.month);
    assert MonthNumberText(e.month) == "NaN";
    assert YearText([e.month, y]) == y;
    assert |selection| > 0;
  }

  /** A non-empty selection always asks for one month's transactions. */
  lemma MonthEndpointPrefix(selection: string)
    requires selection != ""
    ensures "/list_month_transactions/" <= Endpoint(selection)
  {
    var parts := Split(selection, ' ');
    var route := "/list_month_transactions/";
    var index := MonthNumberText(parts[0]);
    var year := YearText(parts);
    assert Endpoint(selection) == route + index + "/" + year;
    assert route <= route + index;
    assert route + index <= route + index + "/";
    assert route + index + "/" <= route + index + "/" + year;
  }

  /** Only the empty option selects every transaction. */
  lemma AllTransactionsOnlyForEmpty(selection: string)
    ensures Endpoint(selection) == "/list_all_transactions" <==> selection == ""
  {
    if selection != "" {
      var parts := Split(selection, ' ');
      assert |MonthNumberText(parts[0])| >= 1;
      assert |Endpoint(selection)| > |"/list_all_transactions"|;
    }
  }

  /** The options of the month select: "All time", then one per month entry. */
  function Options(months: seq<MonthEntry>): (opts: seq<string>)
    ensures |opts| == |months| + 1 && opts[0] == ""
    ensures forall i :: 0 <= i < |months| ==> opts[i + 1] == OptionValue(months[i])
  {
    [""] + seq(|months|, i requires 0 <= i < |months| => OptionValue(months[i]))
  }

  /**
   * The first option fetches every transaction, and the option of each month
   * entry with a named month fetches that entry's month and year.
   */
  lemma OptionsSelectTheirMonth(months: seq<MonthEntry>, i: nat, m: nat)
    requires i < |months| && 1 <= m <= 12 && months[i].month == MonthNames[m - 1]
    ensures Endpoint(Options(months)[0]) == "/list_all_transactions"
    ensures Endpoint(Options(months)[i + 1])
      == "/list_month_transactions/" + NatToString(m) + "/" + NatToString(months[i].year)
  {
    assert Options(months)[i + 1] == OptionValue(months[i]);
    MonthOptionEndpoint(months[i], m);
  }

  /** No option after the first fetches every transaction. */
  lemma OptionsAfterFirstNarrow(months: seq<MonthEntry>, i: nat)
    requires 0 < i <= |months|
    ensures Endpoint(Options(months)[i]) != "/list_all_transactions"
  {
    assert Options(months)[i] == OptionValue(months[i - 1]);
    assert |OptionValue(months[i - 1])| > 0 by {
      assert |NatToString(months[i - 1].year)| > 0;
    }
    AllTransactionsOnlyForEmpty(Options(months)[i]);
  }

  /**
   * The panel's state. `requests` records the fetches issued, each paired
   * in the model with its outcome: `None` when nothing is stored (the
   * fetch or the JSON parse failed, which the source does not catch), `Some`
   * for the list received, whatever the response status.
   */
  class DetailsPanel {
    var monthList: seq<MonthEntry>
    var selectedMonth: string
    var transactions: seq<TableRow.TransactionJson>
    var requests: seq<Request>

    /** Mounting: fetch the months, then every transaction for the empty selection. */
    constructor (months: Option<seq<MonthEntry>>, all: Option<seq<TableRow.TransactionJson>>)
      ensures requests == [Get("/list_months"), Get(Endpoint(""))]
      ensures selectedMonth == ""
      ensures monthList == (if months.Some? then months.value else [])
      ensures transactions == (if all.Some? then all.value else [])
    {
      monthList := if months.Some? then months.value else [];
      selectedMonth := "";
      transactions := if all.Some? then all.value else [];
      requests := [Get("/list_months"), Get(Endpoint(""))];
    }

    /**
     * A change of the month select. The effect re-runs only when the
     * selection differs; the list it receives replaces the old one.
     */
    method HandleMonthChange(value: string, received: Option<seq<TableRow.TransactionJson>>)
      modifies this
      ensures selectedMonth == value && monthList == old(monthList)
      ensures value == old(selectedMonth) ==> requests == old(requests) && transactions == old(transactions)
      ensures value != old(selectedMonth) ==> requests == old(requests) + [Get(Endpoint(value))]
      ensures value != old(selectedMonth) ==>
        transactions == (if received.Some? then received.value else old(transactions))
    {
      if value == selectedMonth {
        return;
      }
      selectedMonth := value;
      requests := requests + [Get(Endpoint(selectedMonth))];
      if received.Some? {
        transactions := received.value;
      }
    }
  }

  /** Choosing "March 2024" fetches month 3 of 2024 and shows exactly what arrives. */
  method SelectMarchScenario(rows: seq<TableRow.TransactionJson>)
  {
    var panel := new DetailsPanel(Some([MonthEntry("March", 2024)]), Some([]));
    var opts := Options(panel.monthList);
    MonthOptionEndpoint(MonthEntry("March", 2024), 3);
    panel.HandleMonthChange(opts[1], Some(rows));
    assert NatToString(3) == "3";
    assert panel.requests[2] == Get("/list_month_transactions/" + "3" + "/" + NatToString(2024));
    assert panel.transactions == rows;
  }
}
