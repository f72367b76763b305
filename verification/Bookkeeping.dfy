/** From an invoice or a payroll to a balanced journal entry, its views and the trial balance
    (libs/domain/billing/domain/src/entities/invoice.entity.ts; libs/domain/accounting). */
module Bookkeeping {
  import opened Money
  import opened Summation

  datatype Line = Line(account: nat, debit: Decimal, credit: Decimal)

  datatype Verdict = Balanced | NegativeAmount | NotBalanced(debit: Decimal, credit: Decimal)

  function DebitOf(line: Line): real {
    line.debit.Value()
  }

  function CreditOf(line: Line): real {
    line.credit.Value()
  }

  function Debits(lines: seq<Line>): real {
    SumBy(lines, DebitOf)
  }

  function Credits(lines: seq<Line>): real {
    SumBy(lines, CreditOf)
  }

  /** Each line adds its debit to the one total and its credit to the other. */
  lemma LineAddsToTotals(lines: seq<Line>, line: Line)
    ensures Debits([]) == 0.0 && Debits(lines + [line]) == Debits(lines) + line.debit.Value()
    ensures Credits([]) == 0.0 && Credits(lines + [line]) == Credits(lines) + line.credit.Value()
  {
    assert (lines + [line])[..|lines|] == lines;
  }

  predicate HasNegative(lines: seq<Line>) {
    exists k :: 0 <= k < |lines| && (lines[k].debit.negative || lines[k].credit.negative)
  }

  class JournalEntry {
    var lines: seq<Line>

    method AddLine(line: Line)
      modifies this
      ensures lines == old(lines) + [line]
    {
      lines := lines + [line];
    }

    method ValidateBalance() returns (verdict: Verdict)
      ensures verdict.NegativeAmount? <==> HasNegative(lines)
      ensures verdict.Balanced? <==> !HasNegative(lines) && Debits(lines) == Credits(lines)
      ensures verdict.NotBalanced? ==> verdict == NotBalanced(ToFixed(Debits(lines)), ToFixed(Credits(lines)))
    {
      var totalDebit, totalCredit := 0.0, 0.0;
      for k := 0 to |lines|
        invariant totalDebit == Debits(lines[..k]) && totalCredit == Credits(lines[..k])
        invariant forall i :: 0 <= i < k ==> !lines[i].debit.negative && !lines[i].credit.negative
      {
        var debit, credit := lines[k].debit, lines[k].credit;
        if debit.negative || credit.negative { return NegativeAmount; }
        assert lines[..k + 1][..k] == lines[..k];
        totalDebit := totalDebit + debit.Value();
        totalCredit := totalCredit + credit.Value();
      }
      assert lines[..|lines|] == lines;
      if totalDebit != totalCredit {
        return NotBalanced(ToFixed(totalDebit), ToFixed(totalCredit));
      }
      return Balanced;
    }
  }

  predicate IsValid(lines: seq<Line>) {
    !HasNegative(lines) && Debits(lines) == Credits(lines)
  }

  function NetOf(line: Line): real {
    line.debit.Value() - line.credit.Value()
  }

  function AccountOf(line: Line): nat {
    line.account
  }

  /** What an account's lines come to, debits less credits. */
  function Balance(lines: seq<Line>, account: nat): real {
    SumBy(lines, At(NetOf, AccountOf, account))
  }

  /** One line's part in an account's balance. */
  function Share(line: Line, account: nat): real {
    if AccountOf(line) == account then NetOf(line) else 0.0
  }

  // ----------------------------------------------------------------- the two views

  datatype DtoV1 = DtoV1(amount: real, lines: seq<Line>)

  datatype DtoV2 = DtoV2(totalDebit: real, totalCredit: real, lines: seq<Line>)

  function ViewV1(lines: seq<Line>): DtoV1 {
    DtoV1(Debits(lines), lines)
  }

  function ViewV2(lines: seq<Line>): DtoV2 {
    DtoV2(Debits(lines), Credits(lines), lines)
  }

  method ToDto(lines: seq<Line>) returns (dto: DtoV1)
    ensures dto == ViewV1(lines) && dto.amount == Debits(lines) && dto.lines == lines
  {
    var totalAmount, mapped := 0.0, [];
    for k := 0 to |lines|
      invariant totalAmount == Debits(lines[..k]) && mapped == lines[..k]
    {
      assert lines[..k + 1][..k] == lines[..k];
      totalAmount := totalAmount + lines[k].debit.Value();
      mapped := mapped + [lines[k]];
    }
    assert lines[..|lines|] == lines;
    dto := DtoV1(totalAmount, mapped);
  }

  method ToDtoV2(lines: seq<Line>) returns (dto: DtoV2)
    ensures dto == ViewV2(lines)
    ensures dto.totalDebit == Debits(lines) && dto.totalCredit == Credits(lines) && dto.lines == lines
  {
    var totalDebit, totalCredit, mapped := 0.0, 0.0, [];
    for k := 0 to |lines|
      invariant totalDebit == Debits(lines[..k]) && totalCredit == Credits(lines[..k]) && mapped == lines[..k]
    {
      assert lines[..k + 1][..k] == lines[..k];
      totalDebit := totalDebit + lines[k].debit.Value();
      totalCredit := totalCredit + lines[k].credit.Value();
      mapped := mapped + [lines[k]];
    }
    assert lines[..|lines|] == lines;
    dto := DtoV2(totalDebit, totalCredit, mapped);
  }

  function MapJournalEntryV1ToV2(v1: DtoV1): DtoV2 {
    DtoV2(v1.amount, v1.amount, v1.lines)
  }

  /** Going through the first version gives the second version's view of exactly those entries whose debits equal
      their credits. */
  lemma ViewsAgreeIff(lines: seq<Line>)
    ensures MapJournalEntryV1ToV2(ViewV1(lines)) == ViewV2(lines) <==> Debits(lines) == Credits(lines)
    ensures IsValid(lines) ==> MapJournalEntryV1ToV2(ViewV1(lines)) == ViewV2(lines)
  {}

  // ----------------------------------------------------------------- postings

  const NOTHING := Decimal(false, 0.0)

  /** The client is charged the total; sales and VAT are credited. */
  function InvoiceLines(client: nat, sales: nat, vat: nat, total: real, taxes: real): seq<Line> {
    [Line(client, ToFixed(total), NOTHING),
     Line(sales, NOTHING, ToFixed(total - taxes)),
     Line(vat, NOTHING, ToFixed(taxes))]
  }

  function PayrollLines(salaries: nat, bank: nat, taxPayable: nat, netPay: real, taxes: real): seq<Line> {
    [Line(salaries, ToFixed(netPay + taxes), NOTHING),
     Line(bank, NOTHING, ToFixed(netPay)),
     Line(taxPayable, NOTHING, ToFixed(taxes))]
  }

  lemma SumThree(a: Line, b: Line, c: Line)
    ensures Debits([a, b, c]) == a.debit.Value() + b.debit.Value() + c.debit.Value()
    ensures Credits([a, b, c]) == a.credit.Value() + b.credit.Value() + c.credit.Value()
    ensures HasNegative([a, b, c]) <==>
            a.debit.negative || a.credit.negative || b.debit.negative || b.credit.negative || c.debit.negative
                || c.credit.negative
  {
    var lines := [a, b, c];
    SumOfThree(a, b, c, DebitOf);
    SumOfThree(a, b, c, CreditOf);
    if a.debit.negative || a.credit.negative { assert lines[0].debit.negative || lines[0].credit.negative; }
    if b.debit.negative || b.credit.negative { assert lines[1].debit.negative || lines[1].credit.negative; }
    if c.debit.negative || c.credit.negative { assert lines[2].debit.negative || lines[2].credit.negative; }
  }

  /** An invoice posting is accepted exactly when nothing is below zero and its parts round like the total. */
  lemma InvoicePostingIff(client: nat, sales: nat, vat: nat, total: real, taxes: real)
    ensures IsValid(InvoiceLines(client, sales, vat, total, taxes)) <==>
        0.0 <= taxes <= total && !FractionsClash(total - taxes, taxes)
  {
    var lines := InvoiceLines(client, sales, vat, total, taxes);
    SumThree(lines[0], lines[1], lines[2]);
    if 0.0 <= taxes <= total {
      RoundedSumIff(total - taxes, taxes);
      ToFixedIsNearest(total);
      ToFixedIsNearest(total - taxes);
      ToFixedIsNearest(taxes);
      assert total - taxes + taxes == total;
    }
  }

  /** A payroll posting likewise; it is never more than a cent off, and never off when either amount is whole cents. */
  lemma PayrollPostingIff(salaries: nat, bank: nat, taxPayable: nat, netPay: real, taxes: real)
    ensures var lines := PayrollLines(salaries, bank, taxPayable, netPay, taxes);
            && (IsValid(lines) <==> netPay >= 0.0 && taxes >= 0.0 && !FractionsClash(netPay, taxes))
            && -0.01 <= Debits(lines) - Credits(lines) <= 0.01
            && (netPay >= 0.0 && taxes >= 0.0 && (IsWhole(netPay) || IsWhole(taxes)) ==> IsValid(lines))
  {
    var lines := PayrollLines(salaries, bank, taxPayable, netPay, taxes);
    SumThree(lines[0], lines[1], lines[2]);
    SumOffByACent(netPay, taxes);
    ToFixedIsNearest(netPay + taxes);
    ToFixedIsNearest(netPay);
    ToFixedIsNearest(taxes);
    if netPay >= 0.0 && taxes >= 0.0 {
      RoundedSumIff(netPay, taxes);
      if IsWhole(netPay) || IsWhole(taxes) {
        WholeCentsNeverClash(netPay, taxes);
      }
    }
  }

  /** Which accounts the postings move, and by how much. */
  lemma InvoiceMovesAccounts(client: nat, sales: nat, vat: nat, total: real, taxes: real)
    requires client != sales && client != vat && sales != vat
    ensures var lines := InvoiceLines(client, sales, vat, total, taxes);
            && Balance(lines, client) == Cents(RoundCents(total))
            && Balance(lines, sales) == -Cents(RoundCents(total - taxes))
            && Balance(lines, vat) == -Cents(RoundCents(taxes))
            && forall other :: other !in {client, sales, vat} ==> Balance(lines, other) == 0.0
  {
    var lines := InvoiceLines(client, sales, vat, total, taxes);
    ToFixedIsNearest(total);
    ToFixedIsNearest(total - taxes);
    ToFixedIsNearest(taxes);
    forall account ensures Balance(lines, account) ==
        Share(lines[0], account) + Share(lines[1], account) + Share(lines[2], account) {
      SumOfThree(lines[0], lines[1], lines[2], At(NetOf, AccountOf, account));
    }
  }

  lemma PayrollMovesAccounts(salaries: nat, bank: nat, taxPayable: nat, netPay: real, taxes: real)
    requires salaries != bank && salaries != taxPayable && bank != taxPayable
    ensures var lines := PayrollLines(salaries, bank, taxPayable, netPay, taxes);
            && Balance(lines, salaries) == Cents(RoundCents(netPay + taxes))
            && Balance(lines, bank) == -Cents(RoundCents(netPay))
            && Balance(lines, taxPayable) == -Cents(RoundCents(taxes))
            && forall other :: other !in {salaries, bank, taxPayable} ==> Balance(lines, other) == 0.0
  {
    var lines := PayrollLines(salaries, bank, taxPayable, netPay, taxes);
    ToFixedIsNearest(netPay + taxes);
    ToFixedIsNearest(netPay);
    ToFixedIsNearest(taxes);
    forall account ensures Balance(lines, account) ==
        Share(lines[0], account) + Share(lines[1], account) + Share(lines[2], account) {
      SumOfThree(lines[0], lines[1], lines[2], At(NetOf, AccountOf, account));
    }
  }

  // ----------------------------------------------------------------- from invoice to ledger

  datatype Item = Item(amount: real, taxAmount: real)

  datatype Totals = Totals(subTotal: Decimal, taxAmount: Decimal, totalAmount: Decimal)

  function Amounts(items: seq<Item>): real {
    SumBy(items, (item: Item) => item.amount)
  }

  function Taxes(items: seq<Item>): real {
    SumBy(items, (item: Item) => item.taxAmount)
  }

  function TotalsOf(items: seq<Item>): Totals {
    Totals(ToFixed(Amounts(items)), ToFixed(Taxes(items)), ToFixed(Amounts(items) + Taxes(items)))
  }

  class Invoice {
    var items: seq<Item>
    var totals: Totals

    method AddItem(item: Item)
      modifies this
      ensures items == old(items) + [item] && totals == TotalsOf(items)
    {
      items := items + [item];
      RecalculateTotals();
    }

    method RecalculateTotals()
      modifies this`totals
      ensures totals == TotalsOf(items)
    {
      var subtotal, totalTax := 0.0, 0.0;
      for k := 0 to |items|
        invariant subtotal == Amounts(items[..k])
      {
        assert items[..k + 1][..k] == items[..k];
        subtotal := subtotal + items[k].amount;
      }
      for k := 0 to |items|
        invariant totalTax == Taxes(items[..k])
      {
        assert items[..k + 1][..k] == items[..k];
        totalTax := totalTax + items[k].taxAmount;
      }
      assert items[..|items|] == items;
      totals := Totals(ToFixed(subtotal), ToFixed(totalTax), ToFixed(subtotal + totalTax));
    }
  }

  /** The posting of an invoice's own rounded totals is accepted exactly when its rounded tax is not below zero nor
      above its rounded total, so always when subtotal and tax are not below zero; and sales are then credited with
      the subtotal, up to a cent. */
  lemma InvoiceTotalsPost(items: seq<Item>, client: nat, sales: nat, vat: nat)
    ensures var totals := TotalsOf(items);
            var total, taxes := totals.totalAmount.Value(), totals.taxAmount.Value();
            var lines := InvoiceLines(client, sales, vat, total, taxes);
            && (IsValid(lines) <==> 0.0 <= taxes <= total)
            && (Amounts(items) >= 0.0 && Taxes(items) >= 0.0 ==> IsValid(lines))
            && -0.01 <= lines[1].credit.Value() - totals.subTotal.Value() <= 0.01
  {
    var s, t := Amounts(items), Taxes(items);
    var total, taxes := TotalsOf(items).totalAmount.Value(), TotalsOf(items).taxAmount.Value();
    InvoicePostingIff(client, sales, vat, total, taxes);
    ToFixedIsNearest(s + t);
    ToFixedIsNearest(t);
    ToFixedIsNearest(s);
    SumOffByACent(s, t);
    var m, n := RoundCents(s + t), RoundCents(t);
    assert total == Cents(m) && taxes == Cents(n) && total - taxes == Cents(m - n);
    WholeFraction(n);
    WholeFraction(m - n);
    RoundOfCents(m - n);
    ToFixedIsNearest(total - taxes);
    if s >= 0.0 && t >= 0.0 {
      RoundIsMonotone(0.0, t);
      RoundIsMonotone(t, s + t);
    }
  }

  lemma WholeFraction(n: int)
    ensures Fraction(Cents(n)) == 0.0
  {
    FloorIs(Cents(n) * 100.0, n);
  }

  // ----------------------------------------------------------------- the trial balance

  /** The balances of a chart of accounts, added up. */
  function TotalBalance(lines: seq<Line>, accounts: seq<nat>): real {
    SumOverKeys(lines, NetOf, AccountOf, accounts)
  }

  function Ledger(entries: seq<seq<Line>>): seq<Line> {
    if entries == [] then [] else Ledger(entries[..|entries| - 1]) + entries[|entries| - 1]
  }

  lemma {:induction false} NetIsDebitsLessCredits(lines: seq<Line>)
    ensures SumBy(lines, NetOf) == Debits(lines) - Credits(lines)
  {
    if lines != [] {
      NetIsDebitsLessCredits(lines[..|lines| - 1]);
    }
  }

  lemma {:induction false} LedgerBalances(entries: seq<seq<Line>>)
    requires forall k :: 0 <= k < |entries| ==> IsValid(entries[k])
    ensures Debits(Ledger(entries)) == Credits(Ledger(entries))
  {
    if entries != [] {
      var earlier, last := Ledger(entries[..|entries| - 1]), entries[|entries| - 1];
      LedgerBalances(entries[..|entries| - 1]);
      SumOfConcat(earlier, last, DebitOf);
      SumOfConcat(earlier, last, CreditOf);
    }
  }

  /** Any sequence of validated entries leaves a trial balance of zero over any chart that covers its accounts. */
  lemma TrialBalanceIsZero(entries: seq<seq<Line>>, accounts: seq<nat>)
    requires forall k :: 0 <= k < |entries| ==> IsValid(entries[k])
    requires Distinct(accounts) && forall k :: 0 <= k < |Ledger(entries)| ==> AccountOf(Ledger(entries)[k]) in accounts
    ensures TotalBalance(Ledger(entries), accounts) == 0.0
  {
    LedgerBalances(entries);
    NetIsDebitsLessCredits(Ledger(entries));
    KeysPartitionSum(Ledger(entries), NetOf, AccountOf, accounts);
  }

  /** No account's balance depends on the order of the lines, nor does an entry's verdict. */
  lemma OrderDoesNotMatter(xs: seq<Line>, ys: seq<Line>, account: nat)
    requires multiset(xs) == multiset(ys)
    ensures Balance(xs, account) == Balance(ys, account)
    ensures IsValid(xs) <==> IsValid(ys)
  {
    SumIgnoresOrder(xs, ys, At(NetOf, AccountOf, account));
    SumIgnoresOrder(xs, ys, DebitOf);
    SumIgnoresOrder(xs, ys, CreditOf);
    if HasNegative(xs) { NegativeIgnoresOrder(xs, ys); }
    if HasNegative(ys) { NegativeIgnoresOrder(ys, xs); }
  }

  lemma NegativeIgnoresOrder(xs: seq<Line>, ys: seq<Line>)
    requires multiset(xs) == multiset(ys) && HasNegative(xs)
    ensures HasNegative(ys)
  {
    var k :| 0 <= k < |xs| && (xs[k].debit.negative || xs[k].credit.negative);
    assert xs[k] in multiset(ys);
    var j :| 0 <= j < |ys| && ys[j] == xs[k];
  }
}
