/** The billing summary of one order: signed Allegro entries sorted into buckets. Amounts are whole grosze. */
module Billing {
  import opened Options
  import opened Sums

  /** The billing types the program knows by code, and any other. */
  datatype TypeId =
    | FSF | BRG | SUC | LIS | HLB | ORB | DXP | HB4 | SHI | SHIP | DLV
    | FEA | DPG | PRO | NSP | ADS | CB2 | REF | PAD | Other(code: string)

  /** A billing entry; an amount that cannot be read counts as zero. */
  datatype Entry = Entry(typeId: TypeId, amount: int)

  datatype Category = Promoted | Organic | Listing | Shipping | Promo | Bonus | Refund | Unknown

  function CategoryOf(t: TypeId): Category {
    match t
    case FSF | BRG => Promoted
    case SUC => Organic
    case LIS => Listing
    case HLB | ORB | DXP | HB4 | SHI | SHIP | DLV => Shipping
    case FEA | DPG | PRO | NSP | ADS => Promo
    case CB2 => Bonus
    case REF | PAD => Refund
    case Other(_) => Unknown
  }

  datatype Promotion = Highlighted | AllegroAds

  datatype Mark = Plain | IsBonus | IsEstimate

  datatype Detail = Detail(typeId: TypeId, amount: int, mark: Mark)

  datatype Summary = Summary(
    success: bool, commission: int, promotedCommission: int, isPromotedSale: bool, promotionType: Option<Promotion>,
    listingFee: int, shippingFee: int, promoFee: int, otherFees: int, totalFees: int, refunds: int, campaignBonus: int,
    feeDetails: seq<Detail>, shippingEstimated: Option<int>, totalWithEstimate: int)

  // ---------------------------------------------------------------- what an entry is worth to each bucket

  datatype Bucket = Commissions | PromotedCommissions | Listings | Shippings | Promos | Others | Refunds | Bonuses
                  | Ignored | IgnoredDebits | Signed

  function Fee(e: Entry): int {
    if e.amount < 0 then -e.amount else 0
  }

  function Credit(e: Entry): int {
    if e.amount > 0 then e.amount else 0
  }

  function Part(b: Bucket, e: Entry): int {
    var c := CategoryOf(e.typeId);
    match b
    case Commissions => if c.Promoted? || c.Organic? then Fee(e) else 0
    case PromotedCommissions => if c.Promoted? then Fee(e) else 0
    case Listings => if c.Listing? then Fee(e) else 0
    case Shippings => if c.Shipping? then Fee(e) else 0
    case Promos => if c.Promo? then Fee(e) else 0
    case Others => if c.Unknown? then Fee(e) else 0
    case Refunds => if c.Refund? || c.Shipping? then Credit(e) else 0
    case Bonuses => if c.Bonus? then Credit(e) else 0
    case Ignored => if c.Bonus? || c.Refund? then -Fee(e) else if c.Shipping? then 0 else Credit(e)
    case IgnoredDebits => if c.Bonus? || c.Refund? then Fee(e) else 0
    case Signed => e.amount
  }

  function Total(b: Bucket, es: seq<Entry>): int {
    Sum(e => Part(b, e), es)
  }

  function TotalFees(es: seq<Entry>): int {
    Total(Commissions, es) + Total(Listings, es) + Total(Shippings, es) + Total(Promos, es) + Total(Others, es) - Total(Bonuses, es)
  }

  predicate Lists(es: seq<Entry>, typeId: TypeId) {
    exists i :: 0 <= i < |es| && es[i].typeId == typeId
  }

  function PromotionOf(es: seq<Entry>): Option<Promotion> {
    if Lists(es, FSF) then Some(Highlighted) else if Lists(es, BRG) then Some(AllegroAds) else None
  }

  /** The lines shown for one entry: every debit once, a debit of unknown type a second time, a bonus. */
  function DetailsOfEntry(e: Entry): seq<Detail> {
    var c := CategoryOf(e.typeId);
    (if e.amount < 0 then [Detail(e.typeId, -e.amount, Plain)] else []) +
    (if c.Bonus? && e.amount > 0 then [Detail(e.typeId, e.amount, IsBonus)] else []) +
    (if c.Unknown? && e.amount < 0 then [Detail(e.typeId, -e.amount, Plain)] else [])
  }

  function DetailsOf(es: seq<Entry>): seq<Detail> {
    if es == [] then [] else DetailsOf(es[..|es| - 1]) + DetailsOfEntry(es[|es| - 1])
  }

  ghost predicate Amounts(r: Summary, es: seq<Entry>) {
    && r.commission == Total(Commissions, es)
    && r.promotedCommission == Total(PromotedCommissions, es)
    && r.listingFee == Total(Listings, es)
    && r.shippingFee == Total(Shippings, es)
    && r.promoFee == Total(Promos, es)
    && r.otherFees == Total(Others, es)
    && r.refunds == Total(Refunds, es)
    && r.campaignBonus == Total(Bonuses, es)
  }

  /** Every field of the summary is what the entries as a whole say, whatever their order. */
  ghost predicate Buckets(r: Summary, es: seq<Entry>) {
    && Amounts(r, es)
    && r.isPromotedSale == (Lists(es, FSF) || Lists(es, BRG))
    && r.promotionType == PromotionOf(es)
  }

  /** The line shown for an estimated shipping cost. */
  function EstimateLine(estimated: Option<int>): seq<Detail> {
    if estimated.Some? then [Detail(Other("EST"), estimated.value, IsEstimate)] else []
  }

  /**
    * The summary of the entries `es`, the whole of it or, if reading them `failed`, of those read before. The estimate
    * is used exactly when no shipping was charged.
    */
  ghost predicate Summarises(r: Summary, es: seq<Entry>, failed: bool, estimate: Option<int>) {
    && Buckets(r, es)
    && r.success == !failed
    && r.totalFees == (if failed then 0 else TotalFees(es))
    && r.shippingEstimated == (if Total(Shippings, es) == 0 then estimate else None)
    && r.totalWithEstimate == r.totalFees + (if r.shippingEstimated.Some? then r.shippingEstimated.value else 0)
    && r.feeDetails == DetailsOf(es) + EstimateLine(r.shippingEstimated)
  }

  const EMPTY := Summary(false, 0, 0, false, None, 0, 0, 0, 0, 0, 0, 0, [], None, 0)

  // ---------------------------------------------------------------- the accumulating loop

  /** The summary with one more entry, bucket by bucket. */
  function After(r: Summary, e: Entry): Summary {
    r.(commission := r.commission + Part(Commissions, e),
       promotedCommission := r.promotedCommission + Part(PromotedCommissions, e),
       listingFee := r.listingFee + Part(Listings, e),
       shippingFee := r.shippingFee + Part(Shippings, e),
       promoFee := r.promoFee + Part(Promos, e),
       otherFees := r.otherFees + Part(Others, e),
       refunds := r.refunds + Part(Refunds, e),
       campaignBonus := r.campaignBonus + Part(Bonuses, e),
       isPromotedSale := r.isPromotedSale || e.typeId.FSF? || e.typeId.BRG?,
       promotionType := if e.typeId.FSF? then Some(Highlighted)
                        else if e.typeId.BRG? && r.promotionType != Some(Highlighted) then Some(AllegroAds)
                        else r.promotionType,
       feeDetails := r.feeDetails + DetailsOfEntry(e))
  }

  method AddEntry(r0: Summary, e: Entry) returns (r: Summary)
    ensures r == After(r0, e)
  {
    r := r0;
    var fee := if e.amount < 0 then -e.amount else 0;
    if e.amount < 0 {
      r := r.(feeDetails := r.feeDetails + [Detail(e.typeId, fee, Plain)]);
    }
    match CategoryOf(e.typeId) {
      case Promoted =>
        r := r.(commission := r.commission + fee, promotedCommission := r.promotedCommission + fee, isPromotedSale := true);
        if e.typeId == FSF {
          r := r.(promotionType := Some(Highlighted));
        } else if r.promotionType != Some(Highlighted) {
          r := r.(promotionType := Some(AllegroAds));
        }
      case Organic =>
        r := r.(commission := r.commission + fee);
      case Listing =>
        r := r.(listingFee := r.listingFee + fee);
      case Shipping =>
        if e.amount < 0 {
          r := r.(shippingFee := r.shippingFee + fee);
        } else {
          r := r.(refunds := r.refunds + e.amount);
        }
      case Promo =>
        r := r.(promoFee := r.promoFee + fee);
      case Bonus =>
        if e.amount > 0 {
          r := r.(campaignBonus := r.campaignBonus + e.amount,
                  feeDetails := r.feeDetails + [Detail(e.typeId, e.amount, IsBonus)]);
        }
      case Refund =>
        if e.amount > 0 {
          r := r.(refunds := r.refunds + e.amount);
        }
      case Unknown =>
        if e.amount < 0 {
          r := r.(otherFees := r.otherFees + fee, feeDetails := r.feeDetails + [Detail(e.typeId, fee, Plain)]);
        }
    }
  }

  lemma AfterKeepsAmounts(r: Summary, es: seq<Entry>, e: Entry)
    requires Amounts(r, es)
    ensures Amounts(After(r, e), es + [e])
  {
    TotalNext(Commissions, es, e);
    TotalNext(PromotedCommissions, es, e);
    TotalNext(Listings, es, e);
    TotalNext(Shippings, es, e);
    TotalNext(Promos, es, e);
    TotalNext(Others, es, e);
    TotalNext(Refunds, es, e);
    TotalNext(Bonuses, es, e);
  }

  lemma PromotionNext(es: seq<Entry>, e: Entry)
    ensures PromotionOf(es + [e]) == if e.typeId.FSF? then Some(Highlighted)
                                     else if e.typeId.BRG? && PromotionOf(es) != Some(Highlighted) then Some(AllegroAds)
                                     else PromotionOf(es)
  {
    ListsNext(es, e);
  }

  lemma AfterKeepsBuckets(r: Summary, es: seq<Entry>, e: Entry)
    requires Buckets(r, es) && r.feeDetails == DetailsOf(es)
    ensures Buckets(After(r, e), es + [e]) && After(r, e).feeDetails == DetailsOf(es + [e])
  {
    AfterKeepsAmounts(r, es, e);
    ListsNext(es, e);
    PromotionNext(es, e);
    assert (es + [e])[..|es + [e]| - 1] == es;
  }

  lemma TotalNext(b: Bucket, es: seq<Entry>, e: Entry)
    ensures Total(b, es + [e]) == Total(b, es) + Part(b, e)
  {
    SumSnoc(e => Part(b, e), es, e);
  }

  lemma ListsNext(es: seq<Entry>, e: Entry)
    ensures forall id :: Lists(es + [e], id) <==> Lists(es, id) || e.typeId == id
  {
    forall id
      ensures Lists(es + [e], id) <==> Lists(es, id) || e.typeId == id
    {
      assert (es + [e])[|es|] == e;
      if Lists(es, id) {
        var i :| 0 <= i < |es| && es[i].typeId == id;
        assert (es + [e])[i] == es[i];
      }
    }
  }

  function AfterAll(es: seq<Entry>): Summary {
    if es == [] then EMPTY else After(AfterAll(es[..|es| - 1]), es[|es| - 1])
  }

  lemma {:induction false} AfterAllGathers(es: seq<Entry>)
    ensures Buckets(AfterAll(es), es) && AfterAll(es).feeDetails == DetailsOf(es)
    ensures AfterAll(es).totalFees == 0 && !AfterAll(es).success && AfterAll(es).shippingEstimated == None
  {
    if es != [] {
      AfterAllGathers(es[..|es| - 1]);
      AfterKeepsBuckets(AfterAll(es[..|es| - 1]), es[..|es| - 1], es[|es| - 1]);
      assert es == es[..|es| - 1] + [es[|es| - 1]];
    }
  }

  method AddEntries(es: seq<Entry>) returns (r: Summary)
    ensures r == AfterAll(es)
  {
    r := EMPTY;
    for i := 0 to |es|
      invariant r == AfterAll(es[..i])
    {
      assert es[..i + 1][..i] == es[..i];
      r := AddEntry(r, es[i]);
    }
    assert es[..|es|] == es;
  }

  /**
    * `get_order_billing_summary`. `es` are the entries that could be read; `failed` says that the fetch or a later entry
    * ended in an error. `estimate` is the estimated shipping cost when delivery method and order value are known.
    */
  method OrderBillingSummary(es: seq<Entry>, failed: bool, estimate: Option<int>) returns (r: Summary)
    ensures Summarises(r, es, failed, estimate)
  {
    r := AddEntries(es);
    AfterAllGathers(es);
    if !failed {
      r := r.(totalFees := r.commission + r.listingFee + r.shippingFee + r.promoFee + r.otherFees - r.campaignBonus,
              success := true);
    }
    if r.shippingFee == 0 && estimate.Some? {
      r := r.(shippingEstimated := estimate,
              feeDetails := r.feeDetails + [Detail(Other("EST"), estimate.value, IsEstimate)],
              totalWithEstimate := r.totalFees + estimate.value);
    } else {
      r := r.(shippingEstimated := None, totalWithEstimate := r.totalFees);
    }
  }

  // ---------------------------------------------------------------- conservation

  /** Every grosz of the entries is a refund, a fee, or one of the amounts the summary ignores. */
  lemma {:induction false} BillingConserves(es: seq<Entry>)
    ensures Total(Signed, es) == Total(Refunds, es) - TotalFees(es) + Total(Ignored, es)
  {
    if es != [] {
      var init, last := es[..|es| - 1], es[|es| - 1];
      BillingConserves(init);
      assert es == init + [last];
      TotalFeesNext(init, last);
      TotalNext(Signed, init, last);
      TotalNext(Refunds, init, last);
      TotalNext(Ignored, init, last);
    }
  }

  predicate IsIgnored(e: Entry) {
    match CategoryOf(e.typeId)
    case Bonus => e.amount < 0
    case Refund => e.amount < 0
    case Shipping => false
    case _ => e.amount > 0
  }

  /** With no ignored entry, the balance of the order is exactly its refunds less its fees. */
  lemma NothingIgnored(es: seq<Entry>)
    requires forall e :: e in es ==> !IsIgnored(e)
    ensures Total(Signed, es) == Total(Refunds, es) - TotalFees(es)
  {
    BillingConserves(es);
    IgnoredIsZero(es);
  }

  lemma {:induction false} IgnoredIsZero(es: seq<Entry>)
    requires forall e :: e in es ==> !IsIgnored(e)
    ensures Total(Ignored, es) == 0
  {
    if es != [] {
      var init, last := es[..|es| - 1], es[|es| - 1];
      IgnoredIsZero(init);
      assert last in es && es == init + [last];
      TotalNext(Ignored, init, last);
    }
  }

  // ---------------------------------------------------------------- entry by entry

  lemma TotalOfOne(b: Bucket, e: Entry)
    ensures Total(b, [e]) == Part(b, e)
  {
    assert [e][..0] == [];
    assert Total(b, []) == 0;
  }

  /** The summary of a single entry: which field takes it, by its code and its sign, and the line that is shown. */
  lemma OneEntry(r: Summary, e: Entry, estimate: Option<int>)
    requires Summarises(r, [e], false, estimate)
    ensures var fee, credit := if e.amount < 0 then -e.amount else 0, if e.amount > 0 then e.amount else 0;
            var shipping := {HLB, ORB, DXP, HB4, SHI, SHIP, DLV};
            && r.commission == (if e.typeId in {SUC, FSF, BRG} then fee else 0)
            && r.promotedCommission == (if e.typeId in {FSF, BRG} then fee else 0)
            && r.listingFee == (if e.typeId == LIS then fee else 0)
            && r.shippingFee == (if e.typeId in shipping then fee else 0)
            && r.promoFee == (if e.typeId in {FEA, DPG, PRO, NSP, ADS} then fee else 0)
            && r.otherFees == (if e.typeId.Other? then fee else 0)
            && r.refunds == (if e.typeId in shipping + {REF, PAD} then credit else 0)
            && r.campaignBonus == (if e.typeId == CB2 then credit else 0)
            && r.totalFees == r.commission + r.listingFee + r.shippingFee + r.promoFee + r.otherFees - r.campaignBonus
            && r.isPromotedSale == (e.typeId in {FSF, BRG})
            && r.promotionType == (if e.typeId == FSF then Some(Highlighted) else if e.typeId == BRG then Some(AllegroAds) else None)
  {
    TotalOfOne(Commissions, e);
    TotalOfOne(PromotedCommissions, e);
    TotalOfOne(Listings, e);
    TotalOfOne(Shippings, e);
    TotalOfOne(Promos, e);
    TotalOfOne(Others, e);
    TotalOfOne(Refunds, e);
    TotalOfOne(Bonuses, e);
    assert [e][0] == e;
    assert forall t :: Lists([e], t) <==> t == e.typeId;
  }

  /** The lines of a single entry: a debit once, twice if its type is unknown; a campaign bonus; nothing else. */
  lemma OneEntryLines(e: Entry)
    ensures var line := Detail(e.typeId, -e.amount, Plain);
            DetailsOf([e]) == if e.amount < 0 && e.typeId.Other? then [line, line]
                              else if e.amount < 0 then [line]
                              else if e.amount > 0 && e.typeId == CB2 then [Detail(CB2, e.amount, IsBonus)]
                              else []
  {
    assert [e][..0] == [] && DetailsOf([]) == [];
    assert DetailsOf([e]) == DetailsOfEntry(e);
  }

  lemma TotalConcat(b: Bucket, es: seq<Entry>, fs: seq<Entry>)
    ensures Total(b, es + fs) == Total(b, es) + Total(b, fs)
  {
    SumConcat(e => Part(b, e), es, fs);
  }

  /** Summaries add up, field by field: with the single entries this says what any list of entries comes to. */
  lemma SummariesAdd(p: Summary, es: seq<Entry>, q: Summary, fs: seq<Entry>, r: Summary)
    requires Buckets(p, es) && Buckets(q, fs) && Buckets(r, es + fs)
    ensures r.commission == p.commission + q.commission && r.promotedCommission == p.promotedCommission + q.promotedCommission
    ensures r.listingFee == p.listingFee + q.listingFee && r.shippingFee == p.shippingFee + q.shippingFee
    ensures r.promoFee == p.promoFee + q.promoFee && r.otherFees == p.otherFees + q.otherFees
    ensures r.refunds == p.refunds + q.refunds && r.campaignBonus == p.campaignBonus + q.campaignBonus
    ensures r.isPromotedSale == (p.isPromotedSale || q.isPromotedSale)
    ensures r.promotionType == if p.promotionType == Some(Highlighted) || q.promotionType.None? then p.promotionType else q.promotionType
  {
    TotalConcat(Commissions, es, fs);
    TotalConcat(PromotedCommissions, es, fs);
    TotalConcat(Listings, es, fs);
    TotalConcat(Shippings, es, fs);
    TotalConcat(Promos, es, fs);
    TotalConcat(Others, es, fs);
    TotalConcat(Refunds, es, fs);
    TotalConcat(Bonuses, es, fs);
    ListsConcat(es, fs);
  }

  lemma ListsConcat(es: seq<Entry>, fs: seq<Entry>)
    ensures forall t :: Lists(es + fs, t) <==> Lists(es, t) || Lists(fs, t)
  {
    forall t
      ensures Lists(es + fs, t) <==> Lists(es, t) || Lists(fs, t)
    {
      if Lists(es, t) {
        var i :| 0 <= i < |es| && es[i].typeId == t;
        assert (es + fs)[i] == es[i];
      }
      if Lists(fs, t) {
        var i :| 0 <= i < |fs| && fs[i].typeId == t;
        assert (es + fs)[|es| + i] == fs[i];
      }
    }
  }

  lemma {:induction false} DetailsConcat(es: seq<Entry>, fs: seq<Entry>)
    ensures DetailsOf(es + fs) == DetailsOf(es) + DetailsOf(fs)
  {
    if fs == [] {
      assert es + fs == es;
    } else {
      var init, last := fs[..|fs| - 1], fs[|fs| - 1];
      assert (es + fs)[..|es + fs| - 1] == es + init;
      DetailsConcat(es, init);
      assert DetailsOf(es + fs) == DetailsOf(es) + DetailsOf(init) + DetailsOfEntry(last);
    }
  }

  // ---------------------------------------------------------------- order independence

  lemma TotalOfPermutation(b: Bucket, es: seq<Entry>, fs: seq<Entry>)
    requires multiset(es) == multiset(fs)
    ensures Total(b, es) == Total(b, fs)
  {
    SumOfPermutation(e => Part(b, e), es, fs);
  }

  lemma ListsOfPermutation(es: seq<Entry>, fs: seq<Entry>)
    requires multiset(es) == multiset(fs)
    ensures forall id :: Lists(es, id) <==> Lists(fs, id)
  {
    forall id
      ensures Lists(es, id) <==> Lists(fs, id)
    {
      assert Lists(es, id) <==> exists e :: e in multiset(es) && e.typeId == id;
      assert Lists(fs, id) <==> exists e :: e in multiset(fs) && e.typeId == id;
    }
  }

  lemma BucketsOfPermutation(r: Summary, es: seq<Entry>, fs: seq<Entry>)
    requires multiset(es) == multiset(fs) && Buckets(r, es)
    ensures Buckets(r, fs) && TotalFees(es) == TotalFees(fs) && Total(Shippings, es) == Total(Shippings, fs)
  {
    TotalOfPermutation(Commissions, es, fs);
    TotalOfPermutation(PromotedCommissions, es, fs);
    TotalOfPermutation(Listings, es, fs);
    TotalOfPermutation(Shippings, es, fs);
    TotalOfPermutation(Promos, es, fs);
    TotalOfPermutation(Others, es, fs);
    TotalOfPermutation(Refunds, es, fs);
    TotalOfPermutation(Bonuses, es, fs);
    ListsOfPermutation(es, fs);
  }

  /** Whatever the order of the entries, the summaries differ in the order of the fee details only. */
  lemma SummaryOfPermutation(r: Summary, es: seq<Entry>, q: Summary, fs: seq<Entry>, failed: bool, estimate: Option<int>)
    requires multiset(es) == multiset(fs)
    requires Summarises(r, es, failed, estimate) && Summarises(q, fs, failed, estimate)
    ensures q == r.(feeDetails := q.feeDetails)
    ensures multiset(q.feeDetails) == multiset(r.feeDetails)
  {
    BucketsOfPermutation(r, es, fs);
    DetailsOfPermutation(es, fs);
  }

  /** How often an entry shows the line `d`. */
  ghost function Shown(d: Detail, e: Entry): int {
    multiset(DetailsOfEntry(e))[d]
  }

  lemma {:induction false} DetailsCounted(es: seq<Entry>, d: Detail)
    ensures multiset(DetailsOf(es))[d] == Sum(e => Shown(d, e), es)
  {
    if es != [] {
      var init, last := es[..|es| - 1], es[|es| - 1];
      DetailsCounted(init, d);
      assert DetailsOf(es) == DetailsOf(init) + DetailsOfEntry(last);
    }
  }

  lemma DetailsOfPermutation(es: seq<Entry>, fs: seq<Entry>)
    requires multiset(es) == multiset(fs)
    ensures multiset(DetailsOf(es)) == multiset(DetailsOf(fs))
  {
    forall d: Detail
      ensures multiset(DetailsOf(es))[d] == multiset(DetailsOf(fs))[d]
    {
      DetailsCounted(es, d);
      DetailsCounted(fs, d);
      SumOfPermutation(e => Shown(d, e), es, fs);
    }
  }

  // ---------------------------------------------------------------- the fee details

  /** What the detail lines add up to: fees, less the bonuses shown as such. */
  function DetailsBalance(ds: seq<Detail>): int {
    if ds == [] then 0
    else DetailsBalance(ds[..|ds| - 1]) + if ds[|ds| - 1].mark.IsBonus? then -ds[|ds| - 1].amount else ds[|ds| - 1].amount
  }

  lemma {:induction false} DetailsBalanceConcat(a: seq<Detail>, b: seq<Detail>)
    ensures DetailsBalance(a + b) == DetailsBalance(a) + DetailsBalance(b)
  {
    if b == [] {
      assert a + b == a;
    } else {
      assert (a + b)[..|a + b| - 1] == a + b[..|b| - 1];
      DetailsBalanceConcat(a, b[..|b| - 1]);
    }
  }

  lemma DetailsOfEntryBalance(e: Entry)
    ensures DetailsBalance(DetailsOfEntry(e)) == Fee(e) + Part(Others, e) - Part(Bonuses, e)
  {
    var c := CategoryOf(e.typeId);
    var d := Detail(e.typeId, -e.amount, Plain);
    if e.amount < 0 && c.Unknown? {
      assert DetailsOfEntry(e) == [d, d] && [d, d][..1] == [d] && [d][..0] == [];
      assert DetailsBalance([d]) == DetailsBalance([]) - e.amount;
    } else if e.amount < 0 {
      assert DetailsOfEntry(e) == [d] && [d][..0] == [];
    } else if e.amount > 0 && c.Bonus? {
      var b := Detail(e.typeId, e.amount, IsBonus);
      assert DetailsOfEntry(e) == [b] && [b][..0] == [];
    } else {
      assert DetailsOfEntry(e) == [];
    }
  }

  lemma TotalFeesNext(es: seq<Entry>, e: Entry)
    ensures TotalFees(es + [e]) == TotalFees(es) + Fee(e) - Part(Bonuses, e) - Part(IgnoredDebits, e)
  {
    TotalNext(Commissions, es, e);
    TotalNext(Listings, es, e);
    TotalNext(Shippings, es, e);
    TotalNext(Promos, es, e);
    TotalNext(Others, es, e);
    TotalNext(Bonuses, es, e);
  }

  lemma {:induction false} NoNegativeBucket(es: seq<Entry>)
    ensures Total(Others, es) >= 0 && Total(IgnoredDebits, es) >= 0
  {
    if es != [] {
      var init, last := es[..|es| - 1], es[|es| - 1];
      NoNegativeBucket(init);
      assert es == init + [last];
      TotalNext(Others, init, last);
      TotalNext(IgnoredDebits, init, last);
    }
  }

  lemma DetailsNext(es: seq<Entry>, e: Entry)
    ensures DetailsBalance(DetailsOf(es + [e])) == DetailsBalance(DetailsOf(es)) + Fee(e) + Part(Others, e) - Part(Bonuses, e)
  {
    assert (es + [e])[..|es + [e]| - 1] == es;
    DetailsBalanceConcat(DetailsOf(es), DetailsOfEntry(e));
    DetailsOfEntryBalance(e);
  }

  /** The detail lines add up to the total fees plus the fees of unknown type once more, plus the debits it ignores. */
  lemma {:induction false} DetailsExceedTotal(es: seq<Entry>)
    ensures DetailsBalance(DetailsOf(es)) == TotalFees(es) + Total(Others, es) + Total(IgnoredDebits, es)
  {
    if es != [] {
      var init, last := es[..|es| - 1], es[|es| - 1];
      DetailsExceedTotal(init);
      assert es == init + [last];
      DetailsNext(init, last);
      TotalFeesNext(init, last);
      TotalNext(Others, init, last);
      TotalNext(IgnoredDebits, init, last);
    }
  }

  lemma EstimateLineBalance(estimated: Option<int>)
    ensures DetailsBalance(EstimateLine(estimated)) == if estimated.Some? then estimated.value else 0
  {
    if estimated.Some? {
      assert EstimateLine(estimated)[..0] == [];
    }
  }

  lemma {:induction false} NoEstimateAmongEntries(es: seq<Entry>)
    ensures forall d :: d in DetailsOf(es) ==> d.mark != IsEstimate
  {
    if es != [] {
      NoEstimateAmongEntries(es[..|es| - 1]);
    }
  }

  /** An estimate is shown as one more line, the last, under its own code and mark; no other line is marked so. */
  lemma EstimateIsLastLine(r: Summary, es: seq<Entry>, failed: bool, estimate: Option<int>)
    requires Summarises(r, es, failed, estimate)
    ensures (exists d :: d in r.feeDetails && d.mark == IsEstimate) <==> r.shippingFee == 0 && estimate.Some?
    ensures r.shippingFee == 0 && estimate.Some? ==>
              |r.feeDetails| > 0 && r.feeDetails[|r.feeDetails| - 1] == Detail(Other("EST"), estimate.value, IsEstimate)
  {
    NoEstimateAmongEntries(es);
    var lines := DetailsOf(es) + EstimateLine(r.shippingEstimated);
    assert forall d :: d in lines <==> d in DetailsOf(es) || d in EstimateLine(r.shippingEstimated);
    if r.shippingEstimated.Some? {
      assert lines[|lines| - 1].mark == IsEstimate && lines[|lines| - 1] in lines;
    }
  }

  /** By how much the shown lines exceed the shown total; after a failure the total counts none of the entries. */
  lemma DetailsAgainstTotal(r: Summary, es: seq<Entry>, failed: bool, estimate: Option<int>)
    requires Summarises(r, es, failed, estimate)
    ensures DetailsBalance(r.feeDetails) - r.totalWithEstimate
            == Total(Others, es) + Total(IgnoredDebits, es) + if failed then TotalFees(es) else 0
  {
    DetailsExceedTotal(es);
    DetailsBalanceConcat(DetailsOf(es), EstimateLine(r.shippingEstimated));
    EstimateLineBalance(r.shippingEstimated);
  }

  /**
    * So the lines of a successful summary, an estimated shipping cost among them, explain the total with that estimate
    * exactly when no debit has an unknown, bonus or refund type.
    */
  lemma DetailsExplainTotalIff(r: Summary, es: seq<Entry>, estimate: Option<int>)
    requires Summarises(r, es, false, estimate)
    ensures DetailsBalance(r.feeDetails) == r.totalWithEstimate
            <==> forall e :: e in es && e.amount < 0 ==> !(CategoryOf(e.typeId) in {Unknown, Bonus, Refund})
  {
    DetailsAgainstTotal(r, es, false, estimate);
    UnexplainedDebit(es);
  }

  lemma {:induction false} UnexplainedDebit(es: seq<Entry>)
    ensures Total(Others, es) + Total(IgnoredDebits, es) == 0
            <==> forall e :: e in es && e.amount < 0 ==> !(CategoryOf(e.typeId) in {Unknown, Bonus, Refund})
  {
    if es != [] {
      var init, last := es[..|es| - 1], es[|es| - 1];
      UnexplainedDebit(init);
      NoNegativeBucket(init);
      assert es == init + [last];
      TotalNext(Others, init, last);
      TotalNext(IgnoredDebits, init, last);
      assert forall e :: e in es <==> e in init || e == last;
    }
  }
}
