/**
 A monitor bound to a product variant does not look at the base offer in the
 page's JSON-LD: two pages that render alike give the same outcome.
 */
module VariantIndependence {
  import opened Rows
  import opened Texts
  import opened Money
  import opened Extraction
  import MoneyRoundTrip

  /** Same rendered page, and the same title and currency in the JSON-LD. */
  ghost predicate Agree(a: Page, b: Page) {
    && a.texts == b.texts && a.inputs == b.inputs
    && Read(a, JsonLd(TitleField)) == Read(b, JsonLd(TitleField))
    && Read(a, JsonLd(CurrencyField)) == Read(b, JsonLd(CurrencyField))
  }

  predicate ReadsOffer(s: Strategy) {
    s.JsonLd? && s.field in {SkuField, PriceField, AvailabilityField}
  }

  /** No strategy chosen for a field is itself a JSON-LD read of the SKU, price or availability. */
  predicate Rendered(input: LiveInputs) {
    && !ReadsOffer(input.title) && !ReadsOffer(input.price) && !ReadsOffer(input.availability)
    && (input.sku.Some? ==> !ReadsOffer(input.sku.value))
    && (input.currency.Some? ==> !ReadsOffer(input.currency.value))
  }

  ghost predicate Same(a: Page, b: Page, x: Extractors, expected: Currency) {
    Agree(a, b) ==> Extracted(a, x, expected) == Extracted(b, x, expected)
  }

  ghost predicate Independent(x: Extractors, expected: Currency) {
    forall a, b :: Same(a, b, x, expected)
  }

  // ---- Pages that agree read alike ----

  lemma ReadsAlike(a: Page, b: Page, s: Strategy)
    requires Agree(a, b) && !ReadsOffer(s)
    ensures Read(a, s) == Read(b, s)
  {
  }

  lemma {:induction false} FirstAlike(a: Page, b: Page, ss: seq<Strategy>)
    requires Agree(a, b) && forall i :: 0 <= i < |ss| ==> !ReadsOffer(ss[i])
    ensures FirstRead(a, ss) == FirstRead(b, ss)
  {
    hide Agree, Read, Trim;
    if ss != [] {
      ReadsAlike(a, b, ss[0]);
      FirstAlike(a, b, ss[1..]);
    }
  }

  lemma {:induction false} VariantsAlike(a: Page, b: Page, ss: seq<Strategy>)
    requires Agree(a, b)
    ensures VariantsOf(a, ss) == VariantsOf(b, ss)
  {
    hide Agree, Read, Trim;
    if ss != [] {
      var last := ss[|ss| - 1];
      VariantsAlike(a, b, ss[..|ss| - 1]);
      if AttributeOf(last) != "" {
        ReadsAlike(a, b, last);
      }
    }
  }

  lemma OutcomeAlike(a: Page, b: Page, input: LiveInputs, expected: Currency)
    requires Agree(a, b) && VariantBound(input) && Rendered(input)
    ensures Extracted(a, BuildLiveExtractors(input), expected) == Extracted(b, BuildLiveExtractors(input), expected)
  {
    hide Agree, FirstRead, VariantsOf, Parse, NormaliseCurrency, ParseAvailability;
    var x := BuildLiveExtractors(input);
    FirstAlike(a, b, x.title);
    FirstAlike(a, b, x.price);
    FirstAlike(a, b, x.availability);
    FirstAlike(a, b, x.sku);
    FirstAlike(a, b, x.currency);
    VariantsAlike(a, b, x.selectedVariant);
  }

  /** Title, price, availability and SKU are all the JSON-LD title: whenever a title is found, no fallback is reached. */
  predicate TitleOnly(input: LiveInputs) {
    var title := JsonLd(TitleField);
    input.title == title && input.price == title && input.availability == title && input.sku == Some(title)
  }

  lemma TitleOnlyAlike(a: Page, b: Page, input: LiveInputs, expected: Currency)
    requires Agree(a, b) && TitleOnly(input) && Rendered(input)
    ensures Extracted(a, BuildLiveExtractors(input), expected) == Extracted(b, BuildLiveExtractors(input), expected)
  {
    hide Agree, FirstRead, Succeeds, Read, Trim, VariantsOf, Parse, NormaliseCurrency, ParseAvailability;
    var x, title := BuildLiveExtractors(input), JsonLd(TitleField);
    ReadsAlike(a, b, title);
    SucceedsAlike(a, b, title);
    FirstAlike(a, b, x.title);
    FirstAlike(a, b, x.currency);
    VariantsAlike(a, b, x.selectedVariant);
    forall page: Page ensures HeadFirst(page, title, x.title) && HeadFirst(page, title, x.price) && HeadFirst(page, title, x.availability) && HeadFirst(page, title, x.sku) {
      HeadReads(page, title, x.title);
      HeadReads(page, title, x.price);
      HeadReads(page, title, x.availability);
      HeadReads(page, title, x.sku);
    }
    assert HeadFirst(a, title, x.title) && HeadFirst(a, title, x.price) && HeadFirst(a, title, x.availability) && HeadFirst(a, title, x.sku);
    assert HeadFirst(b, title, x.title) && HeadFirst(b, title, x.price) && HeadFirst(b, title, x.availability) && HeadFirst(b, title, x.sku);
    if !Succeeds(a, title) {
      TitleMissing(a, x.title);
      TitleMissing(b, x.title);
    }
  }

  lemma SucceedsAlike(a: Page, b: Page, s: Strategy)
    requires Read(a, s) == Read(b, s)
    ensures Succeeds(a, s) == Succeeds(b, s)
  {
  }

  /** If the first strategy succeeds, the field is what it reads. */
  predicate HeadFirst(page: Page, s: Strategy, ss: seq<Strategy>) {
    Succeeds(page, s) ==> FirstOf(page, ss) == Found(Trim(Read(page, s).value))
  }

  lemma HeadReads(page: Page, s: Strategy, ss: seq<Strategy>)
    requires ss != [] && ss[0] == s
    ensures HeadFirst(page, s, ss)
  {
    hide Read, Trim;
  }

  lemma TitleMissing(page: Page, ss: seq<Strategy>)
    requires ss == [JsonLd(TitleField), JsonLd(TitleField)] && !Succeeds(page, JsonLd(TitleField))
    ensures FirstOf(page, ss) == NoneSucceeded
  {
    hide Succeeds, Read, Trim;
    assert ss == [ss[0]] + [ss[0]];
    FirstOfTwo(page, ss[0], [ss[0]]);
  }

  // ---- Pages that tell the offer apart ----

  /** What the JSON-LD of a sample page has: a title, a currency, and the offer's SKU, price and availability. */
  datatype Sample = Sample(selectors: set<string>, named: bool, priced: bool, offered: bool)

  function Fields(w: Sample): map<string, Json> {
    map["@type" := Text("Product"), "offers" := Object(OfferFields(w))]
    + (if w.named then map["name" := Text("5")] else map[])
    + (if w.offered then map["sku" := Text("USD")] else map[])
  }

  function OfferFields(w: Sample): map<string, Json> {
    (if w.priced then map["priceCurrency" := Text("5")] else map[])
    + (if w.offered then map["price" := Text("USD"), "availability" := Text("USD")] else map[])
  }

  /** Every selector of the sample shows "5", and so do its JSON-LD title and currency; the offer's fields say "USD". */
  function PageOf(w: Sample): Page {
    var shown := map s | s in w.selectors :: "5";
    Page(shown, shown, [Script(1, Some(Object(Fields(w))))])
  }

  lemma SampleProduct(w: Sample)
    ensures PageProduct(PageOf(w)) == Some(Fields(w))
  {
    assert IsProduct(Fields(w));
    assert ScriptProduct(Script(1, Some(Object(Fields(w))))) == Some(Fields(w));
  }

  lemma SampleFields(w: Sample)
    ensures ProductField(Fields(w), TitleField) == if w.named then Some("5") else None
    ensures ProductField(Fields(w), CurrencyField) == if w.priced then Some("5") else None
    ensures forall f :: f in {SkuField, PriceField, AvailabilityField} ==>
      ProductField(Fields(w), f) == if w.offered then Some("USD") else None
  {
    hide Offer;
    SampleOffer(w);
  }

  lemma SampleOffer(w: Sample)
    ensures Offer(Fields(w)) == OfferFields(w)
  {
    hide OfferFields;
  }

  /** What a strategy reads on a sample page. */
  function SampleRead(w: Sample, s: Strategy): Option<string> {
    if !s.JsonLd? then (if s.selector in w.selectors then Some("5") else None)
    else if ReadsOffer(s) then (if w.offered then Some("USD") else None)
    else if (if s.field == TitleField then w.named else w.priced) then Some("5")
    else None
  }

  lemma SampleReads(w: Sample, s: Strategy)
    ensures Read(PageOf(w), s) == SampleRead(w, s)
  {
    hide Fields, ProductField, PageProduct;
    SampleProduct(w);
    SampleFields(w);
  }

  lemma TrimsToItself()
    ensures Trim("5") == "5" && Trim("USD") == "USD"
  {
    TightTrim("5");
    TightTrim("USD");
  }

  lemma TightTrim(s: string)
    requires s != "" && !IsSpace(s[0]) && !IsSpace(s[|s| - 1])
    ensures Trim(s) == s
  {
  }

  lemma SampleSucceeds(w: Sample, s: Strategy)
    ensures (Succeeds(PageOf(w), s) <==> SampleRead(w, s).Some?)
    ensures SampleRead(w, s).Some? ==> Read(PageOf(w), s).Some? && Trim(Read(PageOf(w), s).value) == SampleRead(w, s).value
  {
    hide Read, PageOf, Trim;
    SampleReads(w, s);
    TrimsToItself();
  }

  lemma SamplesAgree(w: Sample)
    ensures Agree(PageOf(w.(offered := false)), PageOf(w.(offered := true)))
  {
    hide Read;
    SampleReads(w.(offered := false), JsonLd(TitleField));
    SampleReads(w.(offered := true), JsonLd(TitleField));
    SampleReads(w.(offered := false), JsonLd(CurrencyField));
    SampleReads(w.(offered := true), JsonLd(CurrencyField));
  }

  /** One strategy, possibly with a fallback. */
  lemma FirstOfTwo(page: Page, s: Strategy, rest: seq<Strategy>)
    requires |rest| <= 1
    ensures FirstOf(page, [s] + rest) ==
      if Succeeds(page, s) then Found(Trim(Read(page, s).value))
      else if rest != [] && Succeeds(page, rest[0]) then Found(Trim(Read(page, rest[0]).value))
      else NoneSucceeded
  {
    hide Read, Trim;
    var ss := [s] + rest;
    assert ss[0] == s && ss[1..] == rest;
    assert FirstRead(page, ss) == if Succeeds(page, s) then Some(Trim(Read(page, s).value)) else FirstRead(page, rest);
    if rest != [] {
      assert rest[1..] == [];
      assert FirstRead(page, rest) == if Succeeds(page, rest[0]) then Some(Trim(Read(page, rest[0]).value)) else None;
    }
  }

  function OrElse(value: Option<string>, other: Option<string>): First {
    if value.Some? then Found(value.value) else if other.Some? then Found(other.value) else NoneSucceeded
  }

  lemma SampleFirst(w: Sample, s: Strategy, rest: seq<Strategy>)
    requires |rest| <= 1
    ensures FirstOf(PageOf(w), [s] + rest) == OrElse(SampleRead(w, s), if rest == [] then None else SampleRead(w, rest[0]))
  {
    hide Succeeds, Read, Trim, PageOf, SampleRead, FirstOf;
    FirstOfTwo(PageOf(w), s, rest);
    SampleSucceeds(w, s);
    if rest != [] {
      SampleSucceeds(w, rest[0]);
    }
  }

  // ---- What a plan reads on a sample page ----

  function Strategies(first: Option<Strategy>, rest: seq<Strategy>): seq<Strategy> {
    if first.Some? then [first.value] + rest else rest
  }

  /** The fallback of a field that the base offer describes. */
  function Fallback(input: LiveInputs, field: Field): seq<Strategy> {
    if VariantBound(input) then [] else [JsonLd(field)]
  }

  lemma PlanLists(input: LiveInputs)
    ensures var x := BuildLiveExtractors(input);
      && x.title == [input.title] + [JsonLd(TitleField)]
      && x.price == [input.price] + Fallback(input, PriceField)
      && x.availability == [input.availability] + Fallback(input, AvailabilityField)
      && x.sku == Strategies(input.sku, Fallback(input, SkuField))
      && x.currency == Strategies(input.currency, [JsonLd(CurrencyField)])
  {
  }

  /** A field with the base offer as its fallback. */
  lemma BoundField(w: Sample, input: LiveInputs, s: Strategy, field: Field)
    requires ReadsOffer(JsonLd(field))
    ensures FirstOf(PageOf(w), [s] + Fallback(input, field)) ==
      OrElse(SampleRead(w, s), if VariantBound(input) || !w.offered then None else Some("USD"))
  {
    hide FirstOf, PageOf;
    SampleFirst(w, s, Fallback(input, field));
  }

  lemma TitleOn(w: Sample, input: LiveInputs)
    ensures FirstOf(PageOf(w), BuildLiveExtractors(input).title) == OrElse(SampleRead(w, input.title), if w.named then Some("5") else None)
  {
    hide FirstOf, PageOf, BuildLiveExtractors;
    PlanLists(input);
    SampleFirst(w, input.title, [JsonLd(TitleField)]);
  }

  lemma PriceOn(w: Sample, input: LiveInputs)
    ensures FirstOf(PageOf(w), BuildLiveExtractors(input).price) ==
      OrElse(SampleRead(w, input.price), if VariantBound(input) || !w.offered then None else Some("USD"))
  {
    hide FirstOf, PageOf, BuildLiveExtractors, SampleRead, Fallback;
    PlanLists(input);
    BoundField(w, input, input.price, PriceField);
  }

  lemma AvailabilityOn(w: Sample, input: LiveInputs)
    ensures FirstOf(PageOf(w), BuildLiveExtractors(input).availability) ==
      OrElse(SampleRead(w, input.availability), if VariantBound(input) || !w.offered then None else Some("USD"))
  {
    hide FirstOf, PageOf, BuildLiveExtractors, SampleRead, Fallback;
    PlanLists(input);
    BoundField(w, input, input.availability, AvailabilityField);
  }

  lemma SkuOn(w: Sample, input: LiveInputs)
    ensures FirstOf(PageOf(w), BuildLiveExtractors(input).sku) ==
      if input.sku.None? && VariantBound(input) then NotAsked
      else OrElse(if input.sku.Some? then SampleRead(w, input.sku.value) else None, if VariantBound(input) || !w.offered then None else Some("USD"))
  {
    hide FirstOf, PageOf, BuildLiveExtractors;
    PlanLists(input);
    if input.sku.Some? {
      BoundField(w, input, input.sku.value, SkuField);
    } else if VariantBound(input) {
      NoStrategy(PageOf(w));
    } else {
      assert [JsonLd(SkuField)] == [JsonLd(SkuField)] + [];
      SampleFirst(w, JsonLd(SkuField), []);
    }
  }

  lemma CurrencyOn(w: Sample, input: LiveInputs)
    requires input.currency.Some?
    ensures FirstOf(PageOf(w), BuildLiveExtractors(input).currency) ==
      OrElse(SampleRead(w, input.currency.value), if w.priced then Some("5") else None)
  {
    hide FirstOf, PageOf, BuildLiveExtractors;
    PlanLists(input);
    SampleFirst(w, input.currency.value, [JsonLd(CurrencyField)]);
  }

  /** The five fields of a plan on a sample page. */
  lemma FieldsOf(w: Sample, input: LiveInputs)
    ensures var page, x, base := PageOf(w), BuildLiveExtractors(input), if VariantBound(input) || !w.offered then None else Some("USD");
      && FirstOf(page, x.title) == OrElse(SampleRead(w, input.title), if w.named then Some("5") else None)
      && FirstOf(page, x.price) == OrElse(SampleRead(w, input.price), base)
      && FirstOf(page, x.availability) == OrElse(SampleRead(w, input.availability), base)
      && FirstOf(page, x.sku) == (if input.sku.None? && VariantBound(input) then NotAsked
           else OrElse(if input.sku.Some? then SampleRead(w, input.sku.value) else None, base))
      && (input.currency.Some? ==>
            FirstOf(page, x.currency) == OrElse(SampleRead(w, input.currency.value), if w.priced then Some("5") else None))
  {
    hide FirstOf, PageOf, BuildLiveExtractors, SampleRead;
    TitleOn(w, input);
    PriceOn(w, input);
    AvailabilityOn(w, input);
    SkuOn(w, input);
    if input.currency.Some? {
      CurrencyOn(w, input);
    }
  }

  function Selector(s: Strategy): set<string> {
    if s.JsonLd? then {} else {s.selector}
  }

  function Selectors(input: LiveInputs): set<string> {
    Selector(input.title) + Selector(input.price) + Selector(input.availability)
    + (if input.sku.Some? then Selector(input.sku.value) else {})
    + (if input.currency.Some? then Selector(input.currency.value) else {})
  }

  /** A page on which every strategy that does not read the offer succeeds. */
  function Full(input: LiveInputs, offered: bool): Sample {
    Sample(Selectors(input), !ReadsOffer(input.title), true, offered)
  }

  lemma FiveParses()
    ensures Parse("5") == Price(500, None)
  {
    hide Parse;
    var bare := MoneyRoundTrip.Layout(MoneyRoundTrip.Bare, true, "");
    MoneyRoundTrip.SpellingsAgree(bare, 500, MoneyRoundTrip.Ungrouped, '.', false);
    assert Decimal(5) == "5";
    assert MoneyRoundTrip.Spell(bare, 500, MoneyRoundTrip.Ungrouped, '.', false) == "" + ("5" + "") + "" == "5";
  }

  lemma FiveIsNoCurrency()
    ensures NormaliseCurrency("5") == None && NormaliseCurrency("USD") == Some(USD)
  {
    hide Trim;
    TrimsToItself();
    assert Upper("5") == "5" && Upper("USD") == "USD";
  }

  /** All fields are read and the price is "5": the currency decides. */
  lemma CurrencyInterprets(page: Page, x: Extractors, expected: Currency, title: string, availability: string, sku: First)
    ensures Interpret(page, x, expected, title, "5", availability, sku, Found("5")) == Thrown(BadCurrency)
    ensures Interpret(page, x, expected, title, "5", availability, sku, Found("USD")) != Thrown(BadCurrency)
  {
    hide Parse, NormaliseCurrency, ParseAvailability, VariantsOf;
    FiveParses();
    FiveIsNoCurrency();
  }

  /** The outcomes on the two pages of a sample differ. */
  ghost predicate Tells(w: Sample, input: LiveInputs, expected: Currency) {
    var x := BuildLiveExtractors(input);
    Extracted(PageOf(w.(offered := false)), x, expected) != Extracted(PageOf(w.(offered := true)), x, expected)
  }

  lemma TellsApart(w: Sample, input: LiveInputs, expected: Currency)
    requires Tells(w, input, expected)
    ensures !Independent(BuildLiveExtractors(input), expected)
  {
    hide Extracted, BuildLiveExtractors, Agree, PageOf;
    SamplesAgree(w);
    assert !Same(PageOf(w.(offered := false)), PageOf(w.(offered := true)), BuildLiveExtractors(input), expected);
  }

  /** A strategy that reads the offer tells the two full pages apart, unless it is the currency's. */
  lemma OfferTells(input: LiveInputs, expected: Currency)
    requires ReadsOffer(input.title) || ReadsOffer(input.price) || ReadsOffer(input.availability) || (input.sku.Some? && ReadsOffer(input.sku.value))
    ensures Tells(Full(input, false), input, expected)
  {
    hide FirstOf, PageOf, BuildLiveExtractors, Interpret;
    FieldsOf(Full(input, false), input);
    FieldsOf(Full(input, true), input);
  }

  lemma CurrencyTells(input: LiveInputs, expected: Currency)
    requires !ReadsOffer(input.title) && !ReadsOffer(input.price) && !ReadsOffer(input.availability)
    requires (input.sku.Some? ==> !ReadsOffer(input.sku.value)) && input.currency.Some? && ReadsOffer(input.currency.value)
    requires input.sku.Some? || VariantBound(input)
    ensures Tells(Full(input, false), input, expected)
  {
    hide FirstOf, PageOf, BuildLiveExtractors, Interpret;
    var x := BuildLiveExtractors(input);
    var a, b := PageOf(Full(input, false)), PageOf(Full(input, true));
    FieldsOf(Full(input, false), input);
    FieldsOf(Full(input, true), input);
    CurrencyInterprets(a, x, expected, "5", "5", FirstOf(a, x.sku));
    CurrencyInterprets(b, x, expected, "5", "5", FirstOf(b, x.sku));
  }

  /** Without a variant a missing SKU strategy leaves the offer's SKU alone. */
  lemma MissingSkuTells(input: LiveInputs, expected: Currency)
    requires !VariantBound(input) && input.sku.None?
    requires !ReadsOffer(input.title) && !ReadsOffer(input.price) && !ReadsOffer(input.availability)
    ensures Tells(Full(input, false), input, expected)
  {
    hide FirstOf, PageOf, BuildLiveExtractors, Interpret;
    FieldsOf(Full(input, false), input);
    FieldsOf(Full(input, true), input);
  }

  /** A page that has nothing but a JSON-LD title, and perhaps the offer. */
  function Titled(offered: bool): Sample {
    Sample({}, true, false, offered)
  }

  /** Without a variant, a price, availability or SKU that is not the title falls back to the offer. */
  lemma FallbackTells(input: LiveInputs, expected: Currency)
    requires !VariantBound(input) && Rendered(input)
    requires var title := JsonLd(TitleField);
      input.price != title || input.availability != title || input.sku != Some(title)
    ensures Tells(Titled(false), input, expected)
  {
    hide FirstOf, PageOf, BuildLiveExtractors, Interpret;
    FieldsOf(Titled(false), input);
    FieldsOf(Titled(true), input);
  }

  /** A title found elsewhere leaves the price to the offer when there is no JSON-LD title. */
  lemma UntitledTells(input: LiveInputs, expected: Currency)
    requires !VariantBound(input) && Rendered(input) && input.price == JsonLd(TitleField) && input.title != JsonLd(TitleField)
    ensures Tells(Full(input, false).(named := false), input, expected)
  {
    hide FirstOf, PageOf, BuildLiveExtractors, Interpret;
    FieldsOf(Full(input, false).(named := false), input);
    FieldsOf(Full(input, true).(named := false), input);
  }

  /** Every other plan is told apart by some sample. */
  lemma OthersTell(input: LiveInputs, expected: Currency) returns (w: Sample)
    requires !(Rendered(input) && (VariantBound(input) || TitleOnly(input)))
    ensures Tells(w, input, expected)
  {
    hide Tells;
    w := Full(input, false);
    if ReadsOffer(input.title) || ReadsOffer(input.price) || ReadsOffer(input.availability) || (input.sku.Some? && ReadsOffer(input.sku.value)) {
      OfferTells(input, expected);
    } else if !VariantBound(input) && input.sku.None? {
      MissingSkuTells(input, expected);
    } else if input.currency.Some? && ReadsOffer(input.currency.value) {
      CurrencyTells(input, expected);
    } else if input.price != JsonLd(TitleField) || input.availability != JsonLd(TitleField) || input.sku != Some(JsonLd(TitleField)) {
      w := Titled(false);
      FallbackTells(input, expected);
    } else {
      w := w.(named := false);
      UntitledTells(input, expected);
    }
  }

  // ---- Main results ----

  /**
   The outcome of a live plan is independent of the JSON-LD price, SKU and
   availability exactly when none of the strategies handed to the policy
   already reads one of them and the plan is bound to a variant, or takes all
   its variant evidence from the JSON-LD title.
   */
  lemma IndependentIff(input: LiveInputs, expected: Currency)
    ensures Independent(BuildLiveExtractors(input), expected) <==> Rendered(input) && (VariantBound(input) || TitleOnly(input))
  {
    hide Extracted, BuildLiveExtractors, Agree, Rendered, TitleOnly, VariantBound;
    var x := BuildLiveExtractors(input);
    if Rendered(input) && (VariantBound(input) || TitleOnly(input)) {
      forall a, b ensures Same(a, b, x, expected) {
        if Agree(a, b) {
          if VariantBound(input) {
            OutcomeAlike(a, b, input, expected);
          } else {
            TitleOnlyAlike(a, b, input, expected);
          }
        }
      }
    } else {
      var w := OthersTell(input, expected);
      TellsApart(w, input, expected);
    }
  }

  predicate ReadBy(page: Page, s: Strategy, value: string) {
    Succeeds(page, s) && value == Trim(Read(page, s).value)
  }

  /** Every variant-bound value of an observation was read by the strategy compiled for it; if that one fails, there is no observation. */
  lemma EvidenceIsBound(page: Page, input: LiveInputs, expected: Currency)
    requires VariantBound(input)
    ensures var outcome := Extracted(page, BuildLiveExtractors(input), expected);
      outcome.Observed? ==>
        && ReadBy(page, input.price, outcome.reading.rawPrice)
        && ReadBy(page, input.availability, outcome.reading.availabilityRaw)
        && (input.sku.None? <==> outcome.reading.sku.None?)
        && (input.sku.Some? ==> ReadBy(page, input.sku.value, outcome.reading.sku.value))
        && Parse(outcome.reading.rawPrice).Price? && outcome.reading.minor == Parse(outcome.reading.rawPrice).minor
  {
    hide Succeeds, Read, Trim, Parse, NormaliseCurrency, ParseAvailability, VariantsOf, FirstOf;
    OnlyStrategy(page, input.price);
    OnlyStrategy(page, input.availability);
    NoStrategy(page);
    if input.sku.Some? {
      OnlyStrategy(page, input.sku.value);
    }
  }

  lemma OnlyStrategy(page: Page, s: Strategy)
    ensures FirstOf(page, [s]) == if Succeeds(page, s) then Found(Trim(Read(page, s).value)) else NoneSucceeded
  {
    hide FirstOf, Succeeds, Read, Trim;
    assert [s] == [s] + [];
    FirstOfTwo(page, s, []);
  }

  lemma NoStrategy(page: Page)
    ensures FirstOf(page, []) == NotAsked
  {
  }
}
