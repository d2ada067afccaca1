/**
 * The stored records: a payment method and a transaction, with the choice
 * lists their character fields are declared over, the bounds on their
 * lengths and on the decimal amount, and the two `__str__` renderings.
 * Character fields keep plain strings, as the database does; the choice
 * lists bound what validation accepts.
 */
module Models {
  import opened Wrappers
  import opened Strings

  /** A Django choice list: pairs of stored value and human-readable label. */
  type Choices = seq<(string, string)>

  const MethodTypes: Choices := [("cash", "Cash"), ("credit", "Credit"), ("debit", "Debit")]
  const CardProcessors: Choices :=
    [("visa", "VISA"), ("mastercard", "Mastercard"), ("am", "American Express"), ("discovery", "Discovery")]
  const TransactionTypes: Choices := [("income", "Income"), ("expense", "Expense")]
  const CategoryChoices: Choices :=
    [("groceries", "Groceries"), ("entertainment", "Entertainment"), ("gas", "Gas"), ("other", "Other")]
  const TimeIntervals: Choices :=
    [("none", "One Time"), ("weekly", "Weekly"), ("monthly", "Monthly"), ("yearly", "Yearly")]

  /** The value `v` is one of the stored values of the list. */
  predicate IsChoice(choices: Choices, v: string)
  {
    exists i :: 0 <= i < |choices| && choices[i].0 == v
  }

  // ------------------------------------------------ the choice sets as types

  datatype MethodType = Cash | Credit | Debit
  {
    function Value(): string
    {
      match this
      case Cash => "cash"
      case Credit => "credit"
      case Debit => "debit"
    }
  }

  /** The stored value names a method type exactly when it is on the choice list. */
  function ParseMethodType(s: string): (r: Option<MethodType>)
    ensures r.Some? <==> IsChoice(MethodTypes, s)
    ensures r.Some? ==> r.value.Value() == s
  {
    assert MethodTypes[0].0 == "cash" && MethodTypes[1].0 == "credit" && MethodTypes[2].0 == "debit";
    if s == "cash" then Some(Cash)
    else if s == "credit" then Some(Credit)
    else if s == "debit" then Some(Debit)
    else None
  }

  datatype CardProcessor = Visa | Mastercard | AmericanExpress | Discovery
  {
    function Value(): string
    {
      match this
      case Visa => "visa"
      case Mastercard => "mastercard"
      case AmericanExpress => "am"
      case Discovery => "discovery"
    }
  }

  function ParseCardProcessor(s: string): (r: Option<CardProcessor>)
    ensures r.Some? <==> IsChoice(CardProcessors, s)
    ensures r.Some? ==> r.value.Value() == s
  {
    assert CardProcessors[0].0 == "visa" && CardProcessors[1].0 == "mastercard";
    assert CardProcessors[2].0 == "am" && CardProcessors[3].0 == "discovery";
    if s == "visa" then Some(Visa)
    else if s == "mastercard" then Some(Mastercard)
    else if s == "am" then Some(AmericanExpress)
    else if s == "discovery" then Some(Discovery)
    else None
  }

  datatype TransactionType = Income | Expense
  {
    function Value(): string
    {
      match this
      case Income => "income"
      case Expense => "expense"
    }
  }

  function ParseTransactionType(s: string): (r: Option<TransactionType>)
    ensures r.Some? <==> IsChoice(TransactionTypes, s)
    ensures r.Some? ==> r.value.Value() == s
  {
    assert TransactionTypes[0].0 == "income" && TransactionTypes[1].0 == "expense";
    if s == "income" then Some(Income)
    else if s == "expense" then Some(Expense)
    else None
  }

  datatype Category = Groceries | Entertainment | Gas | Other
  {
    function Value(): string
    {
      match this
      case Groceries => "groceries"
      case Entertainment => "entertainment"
      case Gas => "gas"
      case Other => "other"
    }
  }

  function ParseCategory(s: string): (r: Option<Category>)
    ensures r.Some? <==> IsChoice(CategoryChoices, s)
    ensures r.Some? ==> r.value.Value() == s
  {
    assert CategoryChoices[0].0 == "groceries" && CategoryChoices[1].0 == "entertainment";
    assert CategoryChoices[2].0 == "gas" && CategoryChoices[3].0 == "other";
    if s == "groceries" then Some(Groceries)
    else if s == "entertainment" then Some(Entertainment)
    else if s == "gas" then Some(Gas)
    else if s == "other" then Some(Other)
    else None
  }

  datatype RepeatInterval = OneTime | Weekly | Monthly | Yearly
  {
    function Value(): string
    {
      match this
      case OneTime => "none"
      case Weekly => "weekly"
      case Monthly => "monthly"
      case Yearly => "yearly"
    }
  }

  function ParseRepeatInterval(s: string): (r: Option<RepeatInterval>)
    ensures r.Some? <==> IsChoice(TimeIntervals, s)
    ensures r.Some? ==> r.value.Value() == s
  {
    assert TimeIntervals[0].0 == "none" && TimeIntervals[1].0 == "weekly";
    assert TimeIntervals[2].0 == "monthly" && TimeIntervals[3].0 == "yearly";
    if s == "none" then Some(OneTime)
    else if s == "weekly" then Some(Weekly)
    else if s == "monthly" then Some(Monthly)
    else if s == "yearly" then Some(Yearly)
    else None
  }

  /** `repeat_interval` defaults to the stored value "none", a one-time transaction. */
  const DefaultRepeatInterval: string := "none"

  lemma DefaultRepeatIntervalIsOneTime()
    ensures IsChoice(TimeIntervals, DefaultRepeatInterval)
    ensures ParseRepeatInterval(DefaultRepeatInterval) == Some(OneTime)
  {
    assert TimeIntervals[0].0 == DefaultRepeatInterval;
  }

  // --------------------------------------------------------------- amounts

  /** `DecimalField(max_digits=10, decimal_places=2)`, held as a whole number of cents. */
  const MaxDigits: nat := 10
  const DecimalPlaces: nat := 2

  function Abs(x: int): nat { if x < 0 then -x else x }

  /** At most ten digits in all, two of them after the point. */
  predicate ValidAmount(cents: int)
  {
    Abs(cents) < Pow10(MaxDigits)
  }

  /** The amount's digit budget as Django counts it: at most eight digits before the point. */
  lemma ValidAmountDigits(cents: int)
    ensures ValidAmount(cents) <==> |NatToString(Abs(cents) / 100)| <= MaxDigits - DecimalPlaces
  {
    NatToStringLength(Abs(cents) / 100, MaxDigits - DecimalPlaces);
    assert Pow10(MaxDigits) == 100 * Pow10(MaxDigits - DecimalPlaces);
  }

  /** The digits of a non-negative amount of cents: whole part, point, two digits. */
  function UnsignedText(m: nat): string
  {
    NatToString(m / 100) + "." + [DigitChar(m % 100 / 10), DigitChar(m % 10)]
  }

  /** `str()` of a two-place decimal: optional minus, whole part, point, two digits. */
  function FormatAmount(cents: int): string
  {
    (if cents < 0 then "-" else "") + UnsignedText(Abs(cents))
  }

  /** Reads "<digits>.<two digits>" back as cents. */
  function ParseUnsigned(body: string): Option<nat>
  {
    if |body| < 4 || body[|body| - 3] != '.' then None
    else
      var whole := body[..|body| - 3];
      var fraction := body[|body| - 2..];
      if !AllDigits(whole) || !AllDigits(fraction) then None
      else Some(100 * ParseDigits(whole) + ParseDigits(fraction))
  }

  /** Reads a rendered two-place decimal back as cents. */
  function ParseAmount(s: string): Option<int>
  {
    var negative := |s| > 0 && s[0] == '-';
    match ParseUnsigned(if negative then s[1..] else s)
    case None => None
    case Some(m) => Some(if negative then -(m as int) else m as int)
  }

  lemma ParseUnsignedText(m: nat)
    ensures ParseUnsigned(UnsignedText(m)) == Some(m)
  {
    var whole := NatToString(m / 100);
    var fraction := [DigitChar(m % 100 / 10), DigitChar(m % 10)];
    var body := UnsignedText(m);
    assert body == whole + "." + fraction;
    assert body[..|body| - 3] == whole;
    assert body[|body| - 2..] == fraction;
    ParseNatToString(m / 100);
    assert fraction[..1] == [DigitChar(m % 100 / 10)];
    assert fraction[..1][..0] == [];
    assert ParseDigits(fraction[..1]) == m % 100 / 10;
    assert ParseDigits(fraction) == 10 * (m % 100 / 10) + m % 10;
  }

  /** The rendering of an amount reads back to the same amount. */
  lemma ParseFormatAmount(cents: int)
    ensures ParseAmount(FormatAmount(cents)) == Some(cents)
  {
    var body := UnsignedText(Abs(cents));
    var s := FormatAmount(cents);
    ParseUnsignedText(Abs(cents));
    if cents < 0 {
      assert s == "-" + body;
      assert s[1..] == body;
    } else {
      assert s == body;
      assert IsDigit(NatToString(Abs(cents) / 100)[0]);
      assert s[0] == NatToString(Abs(cents) / 100)[0];
    }
  }

  lemma FormatAmountInjective(a: int, b: int)
    requires FormatAmount(a) == FormatAmount(b)
    ensures a == b
  {
    ParseFormatAmount(a);
    ParseFormatAmount(b);
  }

  // --------------------------------------------------------------- records

  /** A payment method: owner, display name, type and card processor. */
  datatype PaymentMethod = PaymentMethod(userID: nat, name: string, methodType: string, processor: string)

  /** What validation accepts: a non-blank name, the declared lengths and choice lists. */
  predicate ValidPaymentMethod(m: PaymentMethod)
  {
    m.name != "" && |m.name| <= 100
    && |m.methodType| <= 50 && IsChoice(MethodTypes, m.methodType)
    && |m.processor| <= 100 && IsChoice(CardProcessors, m.processor)
  }

  /**
   * Validation of a method is a non-blank name within its length and the two choice lists:
   * every stored choice value fits its field's `max_length`.
   */
  lemma ValidPaymentMethodIff(m: PaymentMethod)
    ensures ValidPaymentMethod(m) <==>
      m.name != "" && |m.name| <= 100 && ParseMethodType(m.methodType).Some? && ParseCardProcessor(m.processor).Some?
  {
    if ParseMethodType(m.methodType).Some? {
      assert m.methodType in {"cash", "credit", "debit"};
    }
    if ParseCardProcessor(m.processor).Some? {
      assert m.processor in {"visa", "mastercard", "am", "discovery"};
    }
  }

  /** `PaymentMethod.__str__`: the display name. */
  function MethodStr(m: PaymentMethod): string
  {
    m.name
  }

  /** The rendering of a method depends on its name only. */
  lemma MethodStrIsName(m: PaymentMethod, methodType: string, processor: string)
    ensures MethodStr(m) == MethodStr(m.(methodType := methodType, processor := processor))
    ensures MethodStr(m) == m.name
  {
  }

  /** A transaction; the amount is in cents, the payment method reference may be null. */
  datatype Transaction = Transaction(
    userID: nat,
    paymentMethodID: Option<nat>,
    transactionType: string,
    category: string,
    amount: int,
    repeatInterval: string)

  /** What validation accepts: its lengths, its choice lists and the amount's digits. */
  predicate ValidTransaction(t: Transaction)
  {
    |t.transactionType| <= 10 && IsChoice(TransactionTypes, t.transactionType)
    && |t.category| <= 50 && IsChoice(CategoryChoices, t.category)
    && ValidAmount(t.amount)
    && |t.repeatInterval| <= 10 && IsChoice(TimeIntervals, t.repeatInterval)
  }

  /**
   * Validation of a transaction is the amount's digits and the three choice
   * lists: every stored choice value fits its field's `max_length`.
   */
  lemma ValidTransactionIff(t: Transaction)
    ensures ValidTransaction(t) <==>
      ParseTransactionType(t.transactionType).Some? && ParseCategory(t.category).Some?
      && ParseRepeatInterval(t.repeatInterval).Some? && ValidAmount(t.amount)
  {
    if ParseTransactionType(t.transactionType).Some? {
      assert t.transactionType in {"income", "expense"};
    }
    if ParseCategory(t.category).Some? {
      assert t.category in {"groceries", "entertainment", "gas", "other"};
    }
    if ParseRepeatInterval(t.repeatInterval).Some? {
      assert t.repeatInterval in {"none", "weekly", "monthly", "yearly"};
    }
  }

  /** `Transaction.__str__`: "{transaction_type} - {amount} USD". */
  function TransactionStr(t: Transaction): string
  {
    t.transactionType + " - " + FormatAmount(t.amount) + " USD"
  }

  /** Reads a rendered transaction back into its type and amount. */
  function ParseTransactionStr(s: string): Option<(string, int)>
  {
    if |s| < 4 || s[|s| - 4..] != " USD" then None
    else
      var head := s[..|s| - 4];
      var kind := if "income - " <= head then "income" else if "expense - " <= head then "expense" else "";
      if kind == "" then None
      else match ParseAmount(head[|kind| + 3..])
        case None => None
        case Some(cents) => Some((kind, cents))
  }

  /** For a transaction of a declared type, the rendering determines its type and amount. */
  lemma ParseTransactionStrInverse(t: Transaction)
    requires IsChoice(TransactionTypes, t.transactionType)
    ensures ParseTransactionStr(TransactionStr(t)) == Some((t.transactionType, t.amount))
  {
    var s := TransactionStr(t);
    var head := t.transactionType + " - " + FormatAmount(t.amount);
    assert s == head + " USD";
    assert s[|s| - 4..] == " USD";
    assert s[..|s| - 4] == head;
    var k := t.transactionType;
    assert k == "income" || k == "expense" by {
      var i :| 0 <= i < |TransactionTypes| && TransactionTypes[i].0 == k;
    }
    assert head[0] == k[0];
    assert head[|k| + 3..] == FormatAmount(t.amount);
    if k == "income" {
      assert "income - " <= head;
    } else {
      assert !("income - " <= head);
      assert "expense - " <= head;
    }
    ParseFormatAmount(t.amount);
  }

  /** Two transactions of declared types render alike only if type and amount agree. */
  lemma TransactionStrInjective(t1: Transaction, t2: Transaction)
    requires IsChoice(TransactionTypes, t1.transactionType) && IsChoice(TransactionTypes, t2.transactionType)
    requires TransactionStr(t1) == TransactionStr(t2)
    ensures t1.transactionType == t2.transactionType && t1.amount == t2.amount
  {
    ParseTransactionStrInverse(t1);
    ParseTransactionStrInverse(t2);
  }

  /** The transaction types are exactly income and expense. */
  lemma TransactionTypesExactly(s: string)
    ensures IsChoice(TransactionTypes, s) <==> s == "income" || s == "expense"
  {
    assert ParseTransactionType(s).Some? <==> IsChoice(TransactionTypes, s);
  }

  /** Deleting a payment method sets the references to it to null (`on_delete=SET_NULL`). */
  function OnMethodDeleted(ts: seq<Transaction>, methodID: nat): (r: seq<Transaction>)
    ensures |r| == |ts|
    ensures forall i :: 0 <= i < |r| ==> r[i].paymentMethodID != Some(methodID)
    ensures forall i :: 0 <= i < |r| && ts[i].paymentMethodID == Some(methodID) ==> r[i].paymentMethodID == None
    ensures forall i :: 0 <= i < |r| ==> r[i] == ts[i].(paymentMethodID := r[i].paymentMethodID)
    ensures forall i :: 0 <= i < |r| && ts[i].paymentMethodID != Some(methodID) ==> r[i] == ts[i]
    ensures forall i :: 0 <= i < |r| && ValidTransaction(ts[i]) ==> ValidTransaction(r[i])
  {
    seq(|ts|, i requires 0 <= i < |ts| =>
      if ts[i].paymentMethodID == Some(methodID) then ts[i].(paymentMethodID := None) else ts[i])
  }
}
