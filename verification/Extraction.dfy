/**
 Reading one observation off a product page with a compiled plan: every field
 has a list of strategies tried in order, on the rendered page (the DOM) or on
 the first Product of the page's JSON-LD scripts.
 */
module Extraction {
  import opened Rows
  import opened Texts
  import opened Money

  // ---- Pages ----

  /** A parsed JSON value; a number is held as the text it prints as. */
  datatype Json = Null | Bool(b: bool) | Number(digits: string) | Text(text: string) | Array(items: seq<Json>) | Object(fields: map<string, Json>)

  /** One JSON-LD script: the length of its text, and its value unless malformed. */
  datatype Script = Script(length: nat, parsed: Option<Json>)

  /** What a page answers: a selector without an entry makes the read throw. */
  datatype Page = Page(texts: map<string, string>, inputs: map<string, string>, scripts: seq<Script>)

  datatype Field = TitleField | SkuField | PriceField | CurrencyField | AvailabilityField

  datatype Strategy =
    | XpathText(selector: string, attribute: Option<string>)
    | InputValue(selector: string, attribute: Option<string>)
    | JsonLd(field: Field)

  /** An absent list and an empty one are treated alike. */
  datatype Extractors = Extractors(title: seq<Strategy>, price: seq<Strategy>, availability: seq<Strategy>, sku: seq<Strategy>, currency: seq<Strategy>, selectedVariant: seq<Strategy>)

  datatype Error = NoExtractor(field: Field) | MissingRequired | BadPrice | BadCurrency | BadAvailability

  datatype Reading = Reading(title: string, sku: Option<string>, minor: nat, currency: Currency, inStock: bool, availabilityRaw: string, selectedVariant: map<string, string>, rawPrice: string)

  datatype Outcome = Observed(reading: Reading) | Thrown(error: Error)

  // ---- JSON-LD ----

  function Lookup<V>(m: map<string, V>, key: string): Option<V> {
    if key in m then Some(m[key]) else None
  }

  predicate IsProduct(fields: map<string, Json>) {
    "@type" in fields &&
    (fields["@type"] == Text("Product") || (fields["@type"].Array? && Text("Product") in fields["@type"].items))
  }

  function Width(value: Json): nat {
    if value.Array? then |value.items| + 1 else 0
  }

  /** The first Product, in document order, through arrays and @graph. */
  function FindProduct(value: Json): Option<map<string, Json>>
    decreases value, Width(value)
  {
    match value
    case Array(_) => FindFrom(value, 0)
    case Object(fields) =>
      if IsProduct(fields) then Some(fields)
      else if "@graph" in fields then FindProduct(fields["@graph"])
      else None
    case _ => None
  }

  function FindFrom(value: Json, k: nat): Option<map<string, Json>>
    requires value.Array? && k <= |value.items|
    decreases value, |value.items| - k
  {
    if k == |value.items| then None
    else
      var product := FindProduct(value.items[k]);
      if product.Some? then product else FindFrom(value, k + 1)
  }

  /** String(value): arrays join their elements with commas, null elements print as nothing. */
  function Printed(value: Json): string
    decreases value, Width(value)
  {
    match value
    case Null => "null"
    case Bool(b) => if b then "true" else "false"
    case Number(digits) => digits
    case Text(text) => text
    case Array(_) => JoinFrom(value, 0)
    case Object(_) => "[object Object]"
  }

  function JoinFrom(value: Json, k: nat): string
    requires value.Array? && k <= |value.items|
    decreases value, |value.items| - k
  {
    if k == |value.items| then ""
    else
      var item := if value.items[k].Null? then "" else Printed(value.items[k]);
      if k + 1 == |value.items| then item else item + "," + JoinFrom(value, k + 1)
  }

  function Offer(product: map<string, Json>): map<string, Json> {
    var offers := Lookup(product, "offers");
    var first := if offers.Some? && offers.value.Array? then (if |offers.value.items| > 0 then Some(offers.value.items[0]) else None) else offers;
    if first.Some? && first.value.Object? then first.value.fields else map[]
  }

  predicate Present(value: Option<Json>) {
    value.Some? && !value.value.Null?
  }

  function FieldValue(product: map<string, Json>, field: Field): Option<Json> {
    var offer := Offer(product);
    match field
    case TitleField => Lookup(product, "name")
    case SkuField => Lookup(product, "sku")
    case PriceField => if Present(Lookup(offer, "price")) then Lookup(offer, "price") else Lookup(offer, "lowPrice")
    case CurrencyField => Lookup(offer, "priceCurrency")
    case AvailabilityField => Lookup(offer, "availability")
  }

  function ProductField(product: map<string, Json>, field: Field): Option<string> {
    var value := FieldValue(product, field);
    if Present(value) then Some(Printed(value.value)) else None
  }

  const MAX_SCRIPTS := 20
  const MAX_LENGTH := 1_000_000

  function ScriptProduct(script: Script): Option<map<string, Json>> {
    if script.length == 0 || script.length > MAX_LENGTH || script.parsed.None? then None else FindProduct(script.parsed.value)
  }

  function ProductIn(scripts: seq<Script>): Option<map<string, Json>> {
    if scripts == [] then None
    else
      var product := ScriptProduct(scripts[0]);
      if product.Some? then product else ProductIn(scripts[1..])
  }

  function PageProduct(page: Page): Option<map<string, Json>> {
    ProductIn(if |page.scripts| > MAX_SCRIPTS then page.scripts[..MAX_SCRIPTS] else page.scripts)
  }

  method ReadProductJsonLd(page: Page) returns (product: Option<map<string, Json>>)
    ensures product == PageProduct(page)
  {
    hide ScriptProduct;
    var count := if |page.scripts| < MAX_SCRIPTS then |page.scripts| else MAX_SCRIPTS;
    var scripts := page.scripts[..count];
    assert scripts == if |page.scripts| > MAX_SCRIPTS then page.scripts[..MAX_SCRIPTS] else page.scripts;
    for index := 0 to count
      invariant ProductIn(scripts) == ProductIn(scripts[index..])
    {
      assert scripts[index..][0] == scripts[index];
      var found := ScriptProduct(scripts[index]);
      if found.Some? {
        return found;
      }
      assert scripts[index..][1..] == scripts[index + 1..];
    }
    return None;
  }

  // ---- Strategies ----

  function Trim(s: string): string {
    TrimEnd(TrimStart(s))
  }

  /** What one strategy reads; None when it throws. */
  function Read(page: Page, strategy: Strategy): Option<string> {
    match strategy
    case XpathText(selector, _) => Lookup(page.texts, selector)
    case InputValue(selector, _) => Lookup(page.inputs, selector)
    case JsonLd(field) =>
      var product := PageProduct(page);
      if product.None? then None else ProductField(product.value, field)
  }

  predicate Succeeds(page: Page, strategy: Strategy) {
    Read(page, strategy).Some? && Trim(Read(page, strategy).value) != ""
  }

  datatype First = Found(value: string) | NotAsked | NoneSucceeded

  function FirstRead(page: Page, strategies: seq<Strategy>): Option<string> {
    if strategies == [] then None
    else if Succeeds(page, strategies[0]) then Some(Trim(Read(page, strategies[0]).value))
    else FirstRead(page, strategies[1..])
  }

  function FirstOf(page: Page, strategies: seq<Strategy>): First {
    if strategies == [] then NotAsked
    else
      var value := FirstRead(page, strategies);
      if value.Some? then Found(value.value) else NoneSucceeded
  }

  /** Strategy k is the first to succeed, and reads `value`. */
  ghost predicate FirstAt(page: Page, strategies: seq<Strategy>, k: nat, value: string) {
    && k < |strategies| && Succeeds(page, strategies[k]) && value == Trim(Read(page, strategies[k]).value)
    && forall j :: 0 <= j < k ==> !Succeeds(page, strategies[j])
  }

  method ReadFirst(page: Page, strategies: seq<Strategy>) returns (first: First)
    ensures first == FirstOf(page, strategies)
    ensures first.Found? <==> exists k :: 0 <= k < |strategies| && Succeeds(page, strategies[k])
    ensures first.Found? ==> exists k: nat :: FirstAt(page, strategies, k, first.value)
  {
    if |strategies| == 0 {
      return NotAsked;
    }
    for k := 0 to |strategies|
      invariant FirstRead(page, strategies) == FirstRead(page, strategies[k..])
      invariant forall j :: 0 <= j < k ==> !Succeeds(page, strategies[j])
    {
      if Succeeds(page, strategies[k]) {
        assert FirstAt(page, strategies, k, Trim(Read(page, strategies[k]).value));
        return Found(Trim(Read(page, strategies[k]).value));
      }
      assert strategies[k..][1..] == strategies[k + 1..];
    }
    return NoneSucceeded;
  }

  // ---- The observation ----

  predicate Contains(s: string, w: string) {
    exists i :: 0 <= i < |s| && TextAt(s, i, w)
  }

  function Letters(raw: string): string {
    if raw == "" then "" else
      (if 'a' <= LowerChar(raw[0]) <= 'z' then [LowerChar(raw[0])] else "") + Letters(raw[1..])
  }

  function ParseAvailability(raw: string): Option<bool> {
    var value := Letters(raw);
    if Contains(value, "outofstock") || Contains(value, "soldout") || Contains(value, "unavailable") || Contains(value, "preorder") || Contains(value, "backorder") then Some(false)
    else if Contains(value, "instock") || Contains(value, "available") || Contains(value, "addtocart") then Some(true)
    else None
  }

  function NormaliseCurrency(raw: string): Option<Currency> {
    var value := Upper(Trim(raw));
    if value in ["$", "US$", "USD"] then Some(USD)
    else if value in ["€", "EUR"] then Some(EUR)
    else if value in ["£", "GBP"] then Some(GBP)
    else if value in ["C$", "CAD"] then Some(CAD)
    else if value in ["A$", "AUD"] then Some(AUD)
    else None
  }

  function AttributeOf(strategy: Strategy): string {
    if strategy.JsonLd? || strategy.attribute.None? then "" else strategy.attribute.value
  }

  function AddVariant(page: Page, strategy: Strategy, selected: map<string, string>): map<string, string> {
    if AttributeOf(strategy) != "" && Succeeds(page, strategy) then selected[AttributeOf(strategy) := Trim(Read(page, strategy).value)] else selected
  }

  function VariantsOf(page: Page, strategies: seq<Strategy>): map<string, string> {
    if strategies == [] then map[]
    else AddVariant(page, strategies[|strategies| - 1], VariantsOf(page, strategies[..|strategies| - 1]))
  }

  /** Once every field has been read, its values are interpreted; no extractor is blamed any more. */
  function Interpret(page: Page, x: Extractors, expected: Currency, title: string, rawPrice: string, availabilityRaw: string, sku: First, currencyRaw: First): (outcome: Outcome)
    ensures outcome.Thrown? ==> !outcome.error.NoExtractor?
  {
    var price := Parse(rawPrice);
    if price.Refused? then Thrown(BadPrice)
    else
      var currency := NormaliseCurrency(if currencyRaw.Found? then currencyRaw.value else if price.currency.Some? then Code(price.currency.value) else Code(expected));
      if currency.None? then Thrown(BadCurrency)
      else
        var inStock := ParseAvailability(availabilityRaw);
        if inStock.None? then Thrown(BadAvailability)
        else Observed(Reading(title, if sku.Found? then Some(sku.value) else None, price.minor, currency.value, inStock.value, availabilityRaw, VariantsOf(page, x.selectedVariant), rawPrice))
  }

  /** The observation a plan reads off a page, or the first error on the way. */
  function Extracted(page: Page, x: Extractors, expected: Currency): Outcome {
    var title, price, availability := FirstOf(page, x.title), FirstOf(page, x.price), FirstOf(page, x.availability);
    var sku, currency := FirstOf(page, x.sku), FirstOf(page, x.currency);
    if title.NoneSucceeded? then Thrown(NoExtractor(TitleField))
    else if price.NoneSucceeded? then Thrown(NoExtractor(PriceField))
    else if availability.NoneSucceeded? then Thrown(NoExtractor(AvailabilityField))
    else if !title.Found? || !price.Found? || !availability.Found? then Thrown(MissingRequired)
    else if sku.NoneSucceeded? then Thrown(NoExtractor(SkuField))
    else if currency.NoneSucceeded? then Thrown(NoExtractor(CurrencyField))
    else Interpret(page, x, expected, title.value, price.value, availability.value, sku, currency)
  }

  method ReadVariants(page: Page, strategies: seq<Strategy>) returns (selected: map<string, string>)
    ensures selected == VariantsOf(page, strategies)
  {
    selected := map[];
    for k := 0 to |strategies|
      invariant selected == VariantsOf(page, strategies[..k])
    {
      assert strategies[..k + 1][..k] == strategies[..k];
      if AttributeOf(strategies[k]) != "" && Succeeds(page, strategies[k]) {
        selected := selected[AttributeOf(strategies[k]) := Trim(Read(page, strategies[k]).value)];
      }
    }
    assert strategies[..|strategies|] == strategies;
  }

  method ExtractObservation(page: Page, x: Extractors, expected: Currency) returns (outcome: Outcome)
    ensures outcome == Extracted(page, x, expected)
  {
    var title := ReadFirst(page, x.title);
    if title.NoneSucceeded? {
      return Thrown(NoExtractor(TitleField));
    }
    var rawPrice := ReadFirst(page, x.price);
    if rawPrice.NoneSucceeded? {
      return Thrown(NoExtractor(PriceField));
    }
    var availabilityRaw := ReadFirst(page, x.availability);
    if availabilityRaw.NoneSucceeded? {
      return Thrown(NoExtractor(AvailabilityField));
    }
    if !title.Found? || !rawPrice.Found? || !availabilityRaw.Found? {
      return Thrown(MissingRequired);
    }
    var sku := ReadFirst(page, x.sku);
    if sku.NoneSucceeded? {
      return Thrown(NoExtractor(SkuField));
    }
    var currencyRaw := ReadFirst(page, x.currency);
    if currencyRaw.NoneSucceeded? {
      return Thrown(NoExtractor(CurrencyField));
    }
    var price := ParsePrice(rawPrice.value);
    if price.Refused? {
      return Thrown(BadPrice);
    }
    var named := if currencyRaw.Found? then currencyRaw.value else if price.currency.Some? then Code(price.currency.value) else Code(expected);
    var currency := NormaliseCurrency(named);
    if currency.None? {
      return Thrown(BadCurrency);
    }
    var selectedVariant := ReadVariants(page, x.selectedVariant);
    var inStock := ParseAvailability(availabilityRaw.value);
    if inStock.None? {
      return Thrown(BadAvailability);
    }
    return Observed(Reading(title.value, if sku.Found? then Some(sku.value) else None, price.minor, currency.value, inStock.value, availabilityRaw.value, selectedVariant, rawPrice.value));
  }

  // ---- The live extractor policy ----

  datatype LiveInputs = LiveInputs(requestedVariant: map<string, string>, title: Strategy, sku: Option<Strategy>, price: Strategy, currency: Option<Strategy>, availability: Strategy, selectedVariant: seq<Strategy>)

  predicate VariantBound(input: LiveInputs) {
    input.requestedVariant != map[]
  }

  function BuildLiveExtractors(input: LiveInputs): Extractors {
    var bound := VariantBound(input);
    Extractors(
      [input.title, JsonLd(TitleField)],
      if bound then [input.price] else [input.price, JsonLd(PriceField)],
      if bound then [input.availability] else [input.availability, JsonLd(AvailabilityField)],
      if input.sku.None? then (if bound then [] else [JsonLd(SkuField)])
      else (if bound then [input.sku.value] else [input.sku.value, JsonLd(SkuField)]),
      if input.currency.Some? then [input.currency.value, JsonLd(CurrencyField)] else [JsonLd(CurrencyField)],
      input.selectedVariant)
  }
}
