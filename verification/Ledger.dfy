/** Ledger entities, selections of ledger rows, and the classification of postings. */
module Ledger {
  import opened Options
  import opened Text
  import opened Calendar
  import opened Sums

  datatype Side = Debit | Credit

  datatype AccountType = Asset | Liability | Equity | Income | Expense

  /** The system chart of accounts: 1000, 1100, 1200, 1300, 2000, 3000, 4000, 4900, 5000, 6000. */
  datatype SystemCode =
    | Cash | Bank | AccountsReceivable | Inventory | AccountsPayable | OwnersEquity
    | SalesRevenue | OtherIncome | CostOfGoodsSold | OperatingExpenses

  datatype AccountCode = System(code: SystemCode) | Custom(text: string)

  datatype Account = Account(id: string, code: AccountCode, kind: AccountType)

  const SYSTEM_ACCOUNTS: seq<(SystemCode, AccountType)> :=
    [(Cash, Asset), (Bank, Asset), (AccountsReceivable, Asset), (Inventory, Asset), (AccountsPayable, Liability),
     (OwnersEquity, Equity), (SalesRevenue, Income), (OtherIncome, Income), (CostOfGoodsSold, Expense),
     (OperatingExpenses, Expense)]

  /** A `ledger_entries` row; amounts are whole cents. */
  datatype Entry = Entry(
    branch: string,
    side: Side,
    cents: int,
    reference: string,
    saleId: Option<string>,
    account: Option<string>,
    voucher: Option<string>,
    date: Date)

  type Selection = Entry -> bool

  /** The rows a selection keeps, in order. */
  function Where(rows: seq<Entry>, keep: Selection): seq<Entry> {
    if rows == [] then [] else (if keep(rows[0]) then [rows[0]] else []) + Where(rows[1..], keep)
  }

  function Everything(): Selection {
    (e: Entry) => true
  }

  /** The rows that DELETE ... WHERE reference IN refs leaves. */
  function NotReferenced(refs: set<string>): Selection {
    (e: Entry) => e.reference !in refs
  }

  function Without(rows: seq<Entry>, refs: set<string>): seq<Entry> {
    Where(rows, NotReferenced(refs))
  }

  function Of(side: Side): Entry -> int {
    (e: Entry) => if e.side == side then e.cents else 0
  }

  function Signed(): Entry -> int {
    (e: Entry) => if e.side == Debit then e.cents else -e.cents
  }

  /** Debits minus credits of the selected rows. */
  function Net(rows: seq<Entry>, keep: Selection): int {
    Sum(rows, keep, Signed())
  }

  lemma {:induction false} NetIsDifference(rows: seq<Entry>, keep: Selection)
    ensures Net(rows, keep) == Sum(rows, keep, Of(Debit)) - Sum(rows, keep, Of(Credit))
  {
    if rows != [] {
      NetIsDifference(rows[1..], keep);
    }
  }

  lemma {:induction false} WhereAppends(a: seq<Entry>, b: seq<Entry>, keep: Selection)
    ensures Where(a + b, keep) == Where(a, keep) + Where(b, keep)
  {
    if a == [] {
      assert a + b == b;
    } else {
      assert (a + b)[0] == a[0] && (a + b)[1..] == a[1..] + b;
      WhereAppends(a[1..], b, keep);
      var head, x, y := if keep(a[0]) then [a[0]] else [], Where(a[1..], keep), Where(b, keep);
      assert head + (x + y) == (head + x) + y;
    }
  }

  lemma {:induction false} WhereKeepsAll(rows: seq<Entry>, keep: Selection)
    requires forall i | 0 <= i < |rows| :: keep(rows[i])
    ensures Where(rows, keep) == rows
  {
    if rows != [] {
      WhereKeepsAll(rows[1..], keep);
    }
  }

  lemma {:induction false} WhereKeepsNone(rows: seq<Entry>, keep: Selection)
    requires forall i | 0 <= i < |rows| :: !keep(rows[i])
    ensures Where(rows, keep) == []
  {
    if rows != [] {
      WhereKeepsNone(rows[1..], keep);
    }
  }

  lemma {:induction false} WhereCommutes(rows: seq<Entry>, p: Selection, q: Selection)
    ensures Where(Where(rows, p), q) == Where(Where(rows, q), p)
  {
    if rows != [] {
      WhereCommutes(rows[1..], p, q);
      var first := rows[..1];
      WhereAppends(if p(rows[0]) then first else [], Where(rows[1..], p), q);
      WhereAppends(if q(rows[0]) then first else [], Where(rows[1..], q), p);
    }
  }

  lemma {:induction false} WhereMembers(rows: seq<Entry>, keep: Selection)
    ensures forall e :: e in Where(rows, keep) <==> e in rows && keep(e)
  {
    if rows != [] {
      WhereMembers(rows[1..], keep);
      assert rows == [rows[0]] + rows[1..];
    }
  }

  /** Deleting references twice is deleting their union. */
  lemma {:induction false} WithoutTwice(rows: seq<Entry>, a: set<string>, b: set<string>)
    ensures Without(Without(rows, a), b) == Without(rows, a + b)
  {
    if rows != [] {
      WithoutTwice(rows[1..], a, b);
      var rest := Without(rows[1..], a);
      assert ([rows[0]] + rest)[1..] == rest && [] + rest == rest;
    }
  }

  lemma {:induction false} SumWhere(rows: seq<Entry>, p: Selection, keep: Selection, value: Entry -> int)
    requires forall i | 0 <= i < |rows| :: keep(rows[i]) ==> p(rows[i])
    ensures Sum(Where(rows, p), keep, value) == Sum(rows, keep, value)
  {
    if rows != [] {
      SumWhere(rows[1..], p, keep, value);
      var rest := Where(rows[1..], p);
      assert ([rows[0]] + rest)[1..] == rest && [] + rest == rest;
    }
  }

  // Classification.

  /** `classifyLedgerAccount`: a missing reference reads as the empty string. */
  function ClassifyLedgerAccount(reference: Option<string>, side: Side, saleId: Option<string>): SystemCode {
    var ref := if reference.Some? then reference.value else "";
    if StartsWith(ref, "GRN-") || StartsWith(ref, "PRET-") then Inventory
    else if StartsWith(ref, "CRPAY-") then Cash
    else if StartsWith(ref, "EXP-") then OperatingExpenses
    else if StartsWith(ref, "RET-") then SalesRevenue
    else if saleId.Some? then SalesRevenue
    else if side == Credit then OtherIncome
    else OperatingExpenses
  }

  /** SQL truth values: None is UNKNOWN. */
  type Truth = Option<bool>

  /** `column LIKE 'prefix%'`, UNKNOWN on NULL. */
  function Like(column: Option<string>, prefix: string): Truth {
    if column.None? then None else Some(|prefix| <= |column.value| && column.value[..|prefix|] == prefix)
  }

  function Or(a: Truth, b: Truth): Truth {
    if a == Some(true) || b == Some(true) then Some(true)
    else if a == None || b == None then None
    else Some(false)
  }

  /** The CASE of the backfill: a branch is taken when its condition is TRUE. */
  function BackfillCode(reference: Option<string>, side: Side, saleId: Option<string>): SystemCode {
    if Or(Like(reference, "GRN-"), Like(reference, "PRET-")) == Some(true) then Inventory
    else if Like(reference, "CRPAY-") == Some(true) then Cash
    else if Like(reference, "EXP-") == Some(true) then OperatingExpenses
    else if Like(reference, "RET-") == Some(true) then SalesRevenue
    else if saleId != None then SalesRevenue
    else if side == Credit then OtherIncome
    else OperatingExpenses
  }

  /** Runtime classification and historical backfill agree on every posting, NULLs included. */
  lemma ClassifierMatchesBackfill(reference: Option<string>, side: Side, saleId: Option<string>)
    ensures ClassifyLedgerAccount(reference, side, saleId) == BackfillCode(reference, side, saleId)
  {
    if reference.Some? {
      var r := reference.value;
      forall p: string ensures StartsWith(r, p) <==> Like(reference, p) == Some(true) {
        assert p <= r <==> |p| <= |r| && r[..|p|] == p;
      }
    } else {
      assert !StartsWith("", "GRN-") && !StartsWith("", "PRET-") && !StartsWith("", "CRPAY-");
      assert !StartsWith("", "EXP-") && !StartsWith("", "RET-");
    }
  }

  /** The account of a reference by what comes before its first hyphen; None without such a rule. */
  function PrefixRule(prefix: string): Option<SystemCode> {
    if prefix == "GRN" || prefix == "PRET" then Some(Inventory)
    else if prefix == "CRPAY" then Some(Cash)
    else if prefix == "EXP" then Some(OperatingExpenses)
    else if prefix == "RET" then Some(SalesRevenue)
    else None
  }

  lemma StartsWithPrefix(prefix: string, rest: string, p: string)
    requires '-' !in prefix && '-' !in p
    ensures StartsWith(prefix + "-" + rest, p + "-") <==> prefix == p
  {
    var s := prefix + "-" + rest;
    if StartsWith(s, p + "-") {
      assert s[..|p| + 1] == p + "-";
      assert s == p + ['-'] + s[|p| + 1..] && s == prefix + ['-'] + rest;
      SplitAtSeparator(p, s[|p| + 1..], prefix, rest, '-');
    }
  }

  /** The kind of document decides: a reference with a hyphen is classified by the whole text
      before it, whatever the side and the sale; the others, and references of no known kind, are
      sales if they name one, and otherwise income or expenses by their side. */
  lemma {:induction false} ClassifiedByPrefix(prefix: string, rest: string, side: Side, saleId: Option<string>)
    requires '-' !in prefix
    ensures var code := ClassifyLedgerAccount(Some(prefix + "-" + rest), side, saleId);
            if PrefixRule(prefix).Some? then code == PrefixRule(prefix).value
            else code == if saleId.Some? then SalesRevenue else if side == Credit then OtherIncome else OperatingExpenses
  {
    StartsWithPrefix(prefix, rest, "GRN");
    StartsWithPrefix(prefix, rest, "PRET");
    StartsWithPrefix(prefix, rest, "CRPAY");
    StartsWithPrefix(prefix, rest, "EXP");
    StartsWithPrefix(prefix, rest, "RET");
  }

  /** The number of a system account. */
  function AccountNumber(code: SystemCode): nat {
    match code
    case Cash => 1000
    case Bank => 1100
    case AccountsReceivable => 1200
    case Inventory => 1300
    case AccountsPayable => 2000
    case OwnersEquity => 3000
    case SalesRevenue => 4000
    case OtherIncome => 4900
    case CostOfGoodsSold => 5000
    case OperatingExpenses => 6000
  }

  /** The type that the first digit of an account number stands for. */
  function TypeOfNumber(number: nat): AccountType {
    if number < 2000 then Asset
    else if number < 3000 then Liability
    else if number < 4000 then Equity
    else if number < 5000 then Income
    else Expense
  }

  /** The system chart is in the order of its numbers, which tell the types. */
  lemma {:induction false} ChartFollowsNumbers(i: nat)
    requires i < |SYSTEM_ACCOUNTS|
    ensures SYSTEM_ACCOUNTS[i].1 == TypeOfNumber(AccountNumber(SYSTEM_ACCOUNTS[i].0))
    ensures i > 0 ==> AccountNumber(SYSTEM_ACCOUNTS[i - 1].0) < AccountNumber(SYSTEM_ACCOUNTS[i].0)
  {
  }

  predicate IsExpenseReference(reference: string) {
    StartsWith(reference, "EXP-")
  }
}
