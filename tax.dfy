// The tax service (Areas/Accounting/Services/TaxService.cs): the tax
// computed for an amount, the delete guards, the isActive queries, and the
// tax-rate and withholding-tax tables the service changes.

module Tax {
  import opened Wrappers
  import opened Ledger
  import opened Repository
  import opened Catalog

  function RateKey(t: TaxRate): nat { t.id }
  function RateActive(t: TaxRate): bool { t.isActive }
  function WithholdingKey(w: WithholdingTax): nat { w.id }
  function WithholdingActive(w: WithholdingTax): bool { w.isActive }

  datatype TaxCalculation = TaxCalculation(taxAmount: real, amountAfterTax: real)

  /** CalculateTaxAsync: the rate is a percentage of the amount; an unknown
      rate id taxes nothing. */
  function CalculateTax(rates: seq<TaxRate>, amount: real, taxRateId: Guid): (r: TaxCalculation)
    ensures GetById(rates, RateKey, taxRateId).None? ==> r == TaxCalculation(0.0, amount)
    ensures r.amountAfterTax == amount + r.taxAmount
    ensures GetById(rates, RateKey, taxRateId).Some? ==> r.taxAmount * 100.0 == amount * GetById(rates, RateKey, taxRateId).value.rate
  {
    var rate := GetById(rates, RateKey, taxRateId);
    if rate.None? then TaxCalculation(0.0, amount)
    else
      var tax := amount * (rate.value.rate / 100.0);
      TaxCalculation(tax, amount + tax)
  }

  /** A rate of 0 leaves the amount as it is. */
  lemma ZeroRateKeepsAmount(rates: seq<TaxRate>, amount: real, taxRateId: Guid)
    requires GetById(rates, RateKey, taxRateId).Some? ==> GetById(rates, RateKey, taxRateId).value.rate == 0.0
    ensures CalculateTax(rates, amount, taxRateId) == TaxCalculation(0.0, amount)
  {
  }

  /** The tax of a sum of amounts is the sum of their taxes. */
  lemma TaxIsAdditive(rates: seq<TaxRate>, a: real, b: real, taxRateId: Guid)
    ensures var x := CalculateTax(rates, a, taxRateId);
      var y := CalculateTax(rates, b, taxRateId);
      CalculateTax(rates, a + b, taxRateId) == TaxCalculation(x.taxAmount + y.taxAmount, x.amountAfterTax + y.amountAfterTax)
  {
    var rate := GetById(rates, RateKey, taxRateId);
    if rate.Some? {
      var f := rate.value.rate / 100.0;
      assert (a + b) * f == a * f + b * f;
    }
  }

  /** A non-negative rate never lowers a non-negative amount. */
  lemma TaxNeverLowers(rates: seq<TaxRate>, amount: real, taxRateId: Guid)
    requires amount >= 0.0
    requires GetById(rates, RateKey, taxRateId).Some? ==> GetById(rates, RateKey, taxRateId).value.rate >= 0.0
    ensures 0.0 <= CalculateTax(rates, amount, taxRateId).taxAmount
    ensures amount <= CalculateTax(rates, amount, taxRateId).amountAfterTax
  {
    var rate := GetById(rates, RateKey, taxRateId);
    if rate.Some? {
      var f := rate.value.rate / 100.0;
      assert f >= 0.0;
      assert amount * f >= 0.0;
    }
  }

  /** CanDeleteTaxRateAsync: no journal line names the rate. */
  function CanDeleteTaxRate(lines: seq<JournalLine>, id: Guid): (r: bool)
    ensures r <==> forall k :: 0 <= k < |lines| ==> lines[k].taxRateId != Some(id)
  {
    !(exists k :: 0 <= k < |lines| && lines[k].taxRateId == Some(id))
  }

  /** CanDeleteWithholdingTaxAsync: no journal line names the withholding tax. */
  function CanDeleteWithholdingTax(lines: seq<JournalLine>, id: Guid): (r: bool)
    ensures r <==> forall k :: 0 <= k < |lines| ==> lines[k].withholdingTaxId != Some(id)
  {
    !(exists k :: 0 <= k < |lines| && lines[k].withholdingTaxId == Some(id))
  }

  /** GetTaxRatesAsync. */
  function TaxRatesWhere(rates: seq<TaxRate>, isActive: Option<bool>): (r: seq<TaxRate>)
    ensures isActive.None? ==> r == rates
    ensures forall t :: t in r <==> t in rates && (isActive.None? || t.isActive == isActive.value)
    ensures SubsequenceOf(r, rates)
  {
    ByActive(rates, RateActive, isActive)
  }

  /** GetActiveTaxRatesAsync: the active rates, in table order. */
  function ActiveTaxRates(rates: seq<TaxRate>): (r: seq<TaxRate>)
    ensures forall t :: t in r <==> t in rates && t.isActive
  {
    WhereMembers(rates, RateActive);
    Where(rates, RateActive)
  }

  /** The active rates are the rates filtered on isActive = true. */
  lemma ActiveIsFilteredOnTrue(rates: seq<TaxRate>)
    ensures ActiveTaxRates(rates) == TaxRatesWhere(rates, Some(true))
  {
    WhereSame(rates, RateActive, IsActiveIs(RateActive, true));
  }

  /** GetWithholdingTaxesAsync. */
  function WithholdingTaxesWhere(taxes: seq<WithholdingTax>, isActive: Option<bool>): (r: seq<WithholdingTax>)
    ensures isActive.None? ==> r == taxes
    ensures forall w :: w in r <==> w in taxes && (isActive.None? || w.isActive == isActive.value)
    ensures SubsequenceOf(r, taxes)
  {
    ByActive(taxes, WithholdingActive, isActive)
  }

  /** The service object: the two tax tables it changes. */
  class TaxService {
    var taxRates: seq<TaxRate>
    var withholdingTaxes: seq<WithholdingTax>

    constructor (taxRates: seq<TaxRate>, withholdingTaxes: seq<WithholdingTax>)
      ensures this.taxRates == taxRates && this.withholdingTaxes == withholdingTaxes
    {
      this.taxRates := taxRates;
      this.withholdingTaxes := withholdingTaxes;
    }

    /** CreateTaxRateAsync (and AddTaxRateAsync, which is the same): a taken id is a key violation. The row is added under the key Add gives it (`generated`, when the id is Guid.Empty). */
    method CreateTaxRate(t: TaxRate, generated: Guid) returns (r: Outcome<Fault>)
      requires generated != 0 && GetById(taxRates, RateKey, generated).None?
      modifies this`taxRates
      ensures var keyed := t.(id := StoredKey(t.id, generated));
        r == (if GetById(old(taxRates), RateKey, keyed.id).Some? then Fail(DuplicateKey) else Done) &&
        taxRates == if r.Done? then old(taxRates) + [keyed] else old(taxRates)
      ensures t.id == 0 ==> r == Done
    {
      var keyed := t.(id := StoredKey(t.id, generated));
      if GetById(taxRates, RateKey, keyed.id).Some? {
        return Fail(DuplicateKey);
      }
      taxRates := taxRates + [keyed];
      r := Done;
    }

    /** UpdateTaxRateAsync: a rate with no stored row updates nothing. */
    method UpdateTaxRate(t: TaxRate) returns (r: Outcome<Fault>)
      modifies this`taxRates
      ensures r == if GetById(old(taxRates), RateKey, t.id).Some? then Done else Fail(NotFound)
      ensures taxRates == Replace(old(taxRates), RateKey, t)
    {
      r := if GetById(taxRates, RateKey, t.id).Some? then Done else Fail(NotFound);
      taxRates := Replace(taxRates, RateKey, t);
    }

    /** DeleteTaxRateAsync: a missing id changes nothing. */
    method DeleteTaxRate(id: Guid)
      modifies this`taxRates
      ensures taxRates == DeleteById(old(taxRates), RateKey, id)
      ensures GetById(old(taxRates), RateKey, id).None? ==> taxRates == old(taxRates)
    {
      var found := GetById(taxRates, RateKey, id);
      if found.Some? {
        taxRates := DeleteById(taxRates, RateKey, id);
      }
    }

    /** CreateWithholdingTaxAsync (and AddWithholdingTaxAsync): a taken id is a key violation. The row is added under the key Add gives it (`generated`, when the id is Guid.Empty). */
    method CreateWithholdingTax(w: WithholdingTax, generated: Guid) returns (r: Outcome<Fault>)
      requires generated != 0 && GetById(withholdingTaxes, WithholdingKey, generated).None?
      modifies this`withholdingTaxes
      ensures var keyed := w.(id := StoredKey(w.id, generated));
        r == (if GetById(old(withholdingTaxes), WithholdingKey, keyed.id).Some? then Fail(DuplicateKey) else Done) &&
        withholdingTaxes == if r.Done? then old(withholdingTaxes) + [keyed] else old(withholdingTaxes)
      ensures w.id == 0 ==> r == Done
    {
      var keyed := w.(id := StoredKey(w.id, generated));
      if GetById(withholdingTaxes, WithholdingKey, keyed.id).Some? {
        return Fail(DuplicateKey);
      }
      withholdingTaxes := withholdingTaxes + [keyed];
      r := Done;
    }

    /** UpdateWithholdingTaxAsync. */
    method UpdateWithholdingTax(w: WithholdingTax) returns (r: Outcome<Fault>)
      modifies this`withholdingTaxes
      ensures r == if GetById(old(withholdingTaxes), WithholdingKey, w.id).Some? then Done else Fail(NotFound)
      ensures withholdingTaxes == Replace(old(withholdingTaxes), WithholdingKey, w)
    {
      r := if GetById(withholdingTaxes, WithholdingKey, w.id).Some? then Done else Fail(NotFound);
      withholdingTaxes := Replace(withholdingTaxes, WithholdingKey, w);
    }

    /** DeleteWithholdingTaxAsync: a missing id changes nothing. */
    method DeleteWithholdingTax(id: Guid)
      modifies this`withholdingTaxes
      ensures withholdingTaxes == DeleteById(old(withholdingTaxes), WithholdingKey, id)
      ensures GetById(old(withholdingTaxes), WithholdingKey, id).None? ==> withholdingTaxes == old(withholdingTaxes)
    {
      var found := GetById(withholdingTaxes, WithholdingKey, id);
      if found.Some? {
        withholdingTaxes := DeleteById(withholdingTaxes, WithholdingKey, id);
      }
    }
  }
}
