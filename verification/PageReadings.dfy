/** What the readers of availability, currency, variants and JSON-LD answer. */
module PageReadings {
  import opened Rows
  import opened Texts
  import opened Money
  import opened MoneyRoundTrip
  import opened Extraction

  // ---- Availability ----

  const NEGATIVE := ["outofstock", "soldout", "unavailable", "preorder", "backorder"]
  const POSITIVE := ["instock", "available", "addtocart"]

  /** The word stands somewhere in the text. */
  predicate Inside(s: string, w: string) {
    exists k :: 0 <= k <= |s| - |w| && Here(s, k, w)
  }

  predicate Here(s: string, k: nat, w: string) {
    k + |w| <= |s| && s[k..k + |w|] == w
  }

  predicate LowerCase(s: string) {
    forall i :: 0 <= i < |s| ==> 'a' <= s[i] <= 'z'
  }

  lemma {:induction false} LettersAreLower(raw: string)
    ensures LowerCase(Letters(raw))
  {
    if raw != "" {
      LettersAreLower(raw[1..]);
    }
  }

  lemma ContainsIsInside(s: string, w: string)
    requires LowerCase(s) && w != ""
    ensures Contains(s, w) <==> Inside(s, w)
  {
    if Contains(s, w) {
      var k :| 0 <= k < |s| && TextAt(s, k, w);
      HereIsText(s, k, w);
    }
    if Inside(s, w) {
      var k :| 0 <= k <= |s| - |w| && Here(s, k, w);
      HereIsText(s, k, w);
    }
  }

  lemma HereIsText(s: string, k: nat, w: string)
    requires LowerCase(s)
    ensures TextAt(s, k, w) <==> Here(s, k, w)
  {
    if k + |w| <= |s| {
      var part := s[k..k + |w|];
      assert forall j :: 0 <= j < |part| ==> part[j] == s[k + j];
    }
  }

  /** Only letters count; any word for absence means out of stock, else any word for presence means in stock, else the text is not understood. */
  lemma AvailabilityMeans(raw: string)
    ensures var value := Letters(raw);
      ParseAvailability(raw) ==
        if exists w :: w in NEGATIVE && Inside(value, w) then Some(false)
        else if exists w :: w in POSITIVE && Inside(value, w) then Some(true)
        else None
  {
    hide Contains, Inside;
    var value := Letters(raw);
    LettersAreLower(raw);
    forall w | w in NEGATIVE || w in POSITIVE ensures Contains(value, w) <==> Inside(value, w) {
      ContainsIsInside(value, w);
    }
    assert "outofstock" in NEGATIVE && "soldout" in NEGATIVE && "unavailable" in NEGATIVE && "preorder" in NEGATIVE && "backorder" in NEGATIVE;
    assert "instock" in POSITIVE && "available" in POSITIVE && "addtocart" in POSITIVE;
  }

  /** Letters keeps exactly the letters, in order and in lower case. */
  lemma {:induction false} LettersMeans(a: string, c: char, b: string)
    ensures Letters(a + [c] + b) ==
      Letters(a) + (if 'a' <= c <= 'z' then [c] else if 'A' <= c <= 'Z' then [c + 32 as char] else "") + Letters(b)
  {
    var t := a + [c] + b;
    if a == "" {
      assert t[1..] == b;
    } else {
      assert t[1..] == a[1..] + [c] + b;
      LettersMeans(a[1..], c, b);
    }
  }

  // ---- Currency ----

  /** A label names its currency, with any spaces around it. */
  lemma LabelNamesCurrency(tag: Label)
    requires !tag.Bare?
    ensures NormaliseCurrency(LabelText(tag)) == CurrencyOf(tag)
  {
    hide Trim;
    LabelTrims(tag);
    match tag
    case ByCode(c) => assert Upper(Code(c)) == Code(c);
    case BySymbol(s) => UpperSymbol(s);
  }

  lemma LabelTrims(tag: Label)
    requires !tag.Bare?
    ensures Trim(LabelText(tag)) == LabelText(tag)
  {
    hide LabelText;
    HarmlessLabel(tag);
    TrimsGap(LabelText(tag));
  }

  lemma UpperSymbol(s: Symbol)
    ensures Upper(LabelText(BySymbol(s))) == LabelText(BySymbol(s))
  {
  }

  /** Any other text names none. */
  lemma OnlyLabelsName(raw: string)
    ensures NormaliseCurrency(raw).Some? <==> exists tag: Label :: !tag.Bare? && Upper(Trim(raw)) == LabelText(tag)
  {
    hide Trim, Upper;
    var value := Upper(Trim(raw));
    if NormaliseCurrency(raw).Some? {
      var tag :=
        if value == "$" then BySymbol(Dollar) else if value == "US$" then BySymbol(UsDollar) else if value == "€" then BySymbol(EuroSign)
        else if value == "£" then BySymbol(PoundSign) else if value == "C$" then BySymbol(CanadianDollar)
        else if value == "A$" then BySymbol(AustralianDollar) else ByCode(NormaliseCurrency(raw).value);
      assert value == LabelText(tag);
    }
  }

  // ---- Variants ----

  /** Strategy k reads attribute `name` as `value`. */
  predicate ReadsAttribute(page: Page, s: Strategy, name: string) {
    name != "" && !s.JsonLd? && s.attribute == Some(name) && Succeeds(page, s)
  }

  /** The last strategy that reads the attribute; -1 if none does. */
  function LastReader(page: Page, ss: seq<Strategy>, name: string): (k: int)
    ensures -1 <= k < |ss| && (k >= 0 ==> ReadsAttribute(page, ss[k], name))
    ensures forall j :: k < j < |ss| ==> !ReadsAttribute(page, ss[j], name)
  {
    if ss == [] then -1
    else if ReadsAttribute(page, ss[|ss| - 1], name) then |ss| - 1
    else LastReader(page, ss[..|ss| - 1], name)
  }

  /** An attribute is selected exactly when some strategy for it succeeds, and its value is what the last of them reads. */
  lemma {:induction false} VariantMeans(page: Page, ss: seq<Strategy>, name: string)
    ensures var k := LastReader(page, ss, name);
      && (name in VariantsOf(page, ss) <==> k >= 0)
      && (k >= 0 ==> Read(page, ss[k]).Some? && VariantsOf(page, ss)[name] == Trim(Read(page, ss[k]).value))
  {
    hide Read, Trim, Succeeds, ReadsAttribute, AddVariant;
    if ss != [] {
      var last := |ss| - 1;
      VariantMeans(page, ss[..last], name);
      OneVariant(page, ss[last], VariantsOf(page, ss[..last]), name);
    }
  }

  lemma OneVariant(page: Page, s: Strategy, selected: map<string, string>, name: string)
    ensures var after := AddVariant(page, s, selected);
      if ReadsAttribute(page, s, name) then Read(page, s).Some? && name in after && after[name] == Trim(Read(page, s).value)
      else (name in after <==> name in selected) && (name in after ==> after[name] == selected[name])
  {
    hide Read, Trim;
  }

  // ---- JSON-LD ----

  predicate Given(fields: map<string, Json>, key: string) {
    key in fields && !fields[key].Null?
  }

  /** The offer of a product: the only one, or the first of several. */
  predicate Offers(product: map<string, Json>, offer: map<string, Json>) {
    && "offers" in product
    && (product["offers"] == Object(offer) || (product["offers"].Array? && product["offers"].items != [] && product["offers"].items[0] == Object(offer)))
  }

  /** Where each field of a product is read, and that an offer's own price goes before its lowest. */
  lemma FieldsRead(product: map<string, Json>, offer: map<string, Json>)
    requires Offers(product, offer)
    ensures Given(product, "name") ==> ProductField(product, TitleField) == Some(Printed(product["name"]))
    ensures Given(product, "sku") ==> ProductField(product, SkuField) == Some(Printed(product["sku"]))
    ensures Given(offer, "priceCurrency") ==> ProductField(product, CurrencyField) == Some(Printed(offer["priceCurrency"]))
    ensures Given(offer, "availability") ==> ProductField(product, AvailabilityField) == Some(Printed(offer["availability"]))
    ensures Given(offer, "price") ==> ProductField(product, PriceField) == Some(Printed(offer["price"]))
    ensures !Given(offer, "price") && Given(offer, "lowPrice") ==> ProductField(product, PriceField) == Some(Printed(offer["lowPrice"]))
    ensures !Given(offer, "price") && !Given(offer, "lowPrice") ==> ProductField(product, PriceField) == None
    ensures !Given(product, "name") ==> ProductField(product, TitleField) == None
    ensures !Given(product, "sku") ==> ProductField(product, SkuField) == None
    ensures !Given(offer, "priceCurrency") ==> ProductField(product, CurrencyField) == None
    ensures !Given(offer, "availability") ==> ProductField(product, AvailabilityField) == None
  {
    hide Printed;
    assert Offer(product) == offer;
  }

  /** A found product really is one. */
  lemma {:induction false} FoundIsProduct(value: Json)
    ensures FindProduct(value).Some? ==>
      var fields := FindProduct(value).value;
      "@type" in fields && (fields["@type"] == Text("Product") || (fields["@type"].Array? && Text("Product") in fields["@type"].items))
    decreases value, Width(value)
  {
    match value
    case Array(_) => FoundFromIsProduct(value, 0);
    case Object(fields) =>
      if !IsProduct(fields) && "@graph" in fields {
        FoundIsProduct(fields["@graph"]);
      }
    case _ =>
  }

  lemma {:induction false} FoundFromIsProduct(value: Json, k: nat)
    requires value.Array? && k <= |value.items|
    ensures FindFrom(value, k).Some? ==> IsProduct(FindFrom(value, k).value)
    decreases value, |value.items| - k
  {
    if k < |value.items| {
      FoundIsProduct(value.items[k]);
      FoundFromIsProduct(value, k + 1);
    }
  }

  /** A script worth parsing: not empty, not oversized, well formed. */
  predicate Usable(script: Script) {
    1 <= script.length <= 1_000_000 && script.parsed.Some?
  }

  /** Script i is the first of the first twenty with a product, which is `fields`. */
  predicate FirstProductAt(scripts: seq<Script>, i: nat, fields: map<string, Json>) {
    && i < |scripts| && Usable(scripts[i]) && FindProduct(scripts[i].parsed.value) == Some(fields)
    && forall j :: 0 <= j < i ==> !(Usable(scripts[j]) && FindProduct(scripts[j].parsed.value).Some?)
  }

  lemma {:induction false} ProductInIs(scripts: seq<Script>) returns (i: nat)
    ensures i <= |scripts| && forall j :: 0 <= j < i ==> !(Usable(scripts[j]) && FindProduct(scripts[j].parsed.value).Some?)
    ensures if i < |scripts| then ProductIn(scripts).Some? && FirstProductAt(scripts, i, ProductIn(scripts).value) else ProductIn(scripts).None?
  {
    hide FindProduct;
    if scripts == [] {
      i := 0;
    } else if ScriptProduct(scripts[0]).Some? {
      i := 0;
    } else {
      var k := ProductInIs(scripts[1..]);
      i := k + 1;
      forall j | 0 <= j < i ensures !(Usable(scripts[j]) && FindProduct(scripts[j].parsed.value).Some?) {
        assert j > 0 ==> scripts[j] == scripts[1..][j - 1];
      }
      assert k < |scripts[1..]| ==> scripts[i] == scripts[1..][k];
    }
  }

  /** The product of a page is the first product of its first twenty scripts, or there is none. */
  lemma PageProductMeans(page: Page)
    ensures PageProduct(page).Some? ==> exists i: nat :: i < 20 && FirstProductAt(page.scripts, i, PageProduct(page).value)
    ensures PageProduct(page).None? ==>
      forall i :: 0 <= i < 20 && i < |page.scripts| && Usable(page.scripts[i]) ==> FindProduct(page.scripts[i].parsed.value).None?
  {
    hide ProductIn, FindProduct;
    var head := if |page.scripts| > 20 then page.scripts[..20] else page.scripts;
    assert forall j :: 0 <= j < |head| ==> head[j] == page.scripts[j];
    var i := ProductInIs(head);
    if i < |head| {
      assert FirstProductAt(page.scripts, i, ProductIn(head).value);
    } else {
      forall j | 0 <= j < 20 && j < |page.scripts| && Usable(page.scripts[j]) ensures FindProduct(page.scripts[j].parsed.value).None? {
        assert head[j] == page.scripts[j];
      }
    }
  }

  // ---- The observation ----

  lemma {:induction false} FirstReadIs(page: Page, ss: seq<Strategy>) returns (k: nat)
    requires FirstRead(page, ss).Some?
    ensures FirstAt(page, ss, k, FirstRead(page, ss).value)
  {
    hide Read, Trim;
    if Succeeds(page, ss[0]) {
      k := 0;
    } else {
      var i := FirstReadIs(page, ss[1..]);
      k := i + 1;
      assert ss[k] == ss[1..][i] && forall j :: 0 < j < k ==> ss[j] == ss[1..][j - 1];
    }
  }

  /** The value of a field: what the first of its strategies to succeed reads. */
  ghost predicate Gives(page: Page, ss: seq<Strategy>, value: string) {
    exists k: nat :: FirstAt(page, ss, k, value)
  }

  lemma FoundGives(page: Page, ss: seq<Strategy>)
    ensures FirstOf(page, ss).Found? ==> Gives(page, ss, FirstOf(page, ss).value)
    ensures FirstOf(page, ss).NotAsked? <==> ss == []
  {
    hide FirstAt;
    if FirstOf(page, ss).Found? {
      var k := FirstReadIs(page, ss);
    }
  }

  /**
   An observation is what the plan's strategies read: the currency comes from
   its own strategies if there are any, else from the price text, else it is
   the expected one.
   */
  lemma ObservationMeans(page: Page, x: Extractors, expected: Currency)
    ensures var outcome := Extracted(page, x, expected);
      outcome.Observed? ==>
        var o := outcome.reading;
        && Gives(page, x.title, o.title) && Gives(page, x.price, o.rawPrice) && Gives(page, x.availability, o.availabilityRaw)
        && (o.sku.None? <==> x.sku == []) && (o.sku.Some? ==> Gives(page, x.sku, o.sku.value))
        && Parse(o.rawPrice).Price? && o.minor == Parse(o.rawPrice).minor
        && ParseAvailability(o.availabilityRaw) == Some(o.inStock)
        && (x.currency != [] ==> exists raw :: Gives(page, x.currency, raw) && NormaliseCurrency(raw) == Some(o.currency))
        && (x.currency == [] ==> o.currency == if Parse(o.rawPrice).currency.Some? then Parse(o.rawPrice).currency.value else expected)
        && o.selectedVariant == VariantsOf(page, x.selectedVariant)
  {
    hide FirstOf, Gives, Parse, NormaliseCurrency, ParseAvailability, VariantsOf;
    FoundGives(page, x.title);
    FoundGives(page, x.price);
    FoundGives(page, x.availability);
    FoundGives(page, x.sku);
    FoundGives(page, x.currency);
    CodeNames(expected);
    var price := FirstOf(page, x.price);
    if price.Found? && Parse(price.value).Price? && Parse(price.value).currency.Some? {
      CodeNames(Parse(price.value).currency.value);
    }
  }

  lemma CodeNames(c: Currency)
    ensures NormaliseCurrency(Code(c)) == Some(c)
  {
    hide NormaliseCurrency;
    LabelNamesCurrency(ByCode(c));
    CodeText(c);
  }
}
