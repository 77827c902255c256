/** includes/market_functions.php: the listing categories, the checks
    createMarketListing makes before it inserts a listing, and how
    fetchActiveListings and fetchActiveListingsBySeller choose their query
    and clamp their limits. A request payload is a map from field names to
    the submitted strings; a name outside the map is a missing field. */
module Market {
  import opened Strings
  import opened Php

  /** getMarketCategories: the categories in display order, key then label. */
  function MarketCategories(): (r: seq<(string, string)>)
    ensures |r| == 9
    ensures forall i, j :: 0 <= i < j < |r| ==> r[i].0 != r[j].0
    ensures forall i :: 0 <= i < |r| ==> r[i].0 != "" && r[i].1 != ""
  {
    [("crafting", "Crafting Components"),
     ("weapons", "Weapons & Upgrades"),
     ("armor", "Armor & Shields"),
     ("services", "Player Services"),
     ("housing", "Housing & Decorations"),
     ("pets", "Companions & Mounts"),
     ("resources", "Resources & Harvesting"),
     ("consumables", "Food, Stims & Buffs"),
     ("misc", "Miscellaneous Finds")]
  }

  /** The keys of getMarketCategories, in order. */
  function CategoryKeys(): (r: seq<string>)
    ensures |r| == |MarketCategories()|
    ensures forall i :: 0 <= i < |r| ==> r[i] == MarketCategories()[i].0
  {
    ["crafting", "weapons", "armor", "services", "housing", "pets", "resources", "consumables", "misc"]
  }

  /** array_key_exists on the categories. */
  predicate IsCategory(k: string) {
    k in CategoryKeys()
  }

  /** The normalised fields of a listing request. */
  datatype Draft = Draft(title: string, category: string, price: string,
                         currency: string, contact: string, description: string)

  /** The fields as createMarketListing reads them: everything trimmed, the
      category lower-cased, the currency upper-cased, a missing price "0"
      and a missing currency "CREDITS". */
  function ReadDraft(p: Payload): Draft {
    Draft(Trim(Field(p, "title", "")),
          Lower(Trim(Field(p, "category", ""))),
          Trim(Field(p, "price", "0")),
          Upper(Trim(Field(p, "currency", "CREDITS"))),
          Trim(Field(p, "contact", "")),
          Trim(Field(p, "description", "")))
  }

  // ---------------------------------------------------------------------
  // The price pattern ^(?:\d+)(?:\.\d{1,2})?$

  /** The pattern as a left-to-right match: greedy digits, then the end or a
      '.' followed by one or two digits up to the end. */
  predicate PriceMatches(s: string) {
    var n := |DigitRun(s)|;
    n > 0 && (n == |s| || (s[n] == '.' && 2 <= |s| - n <= 3 && AllDigits(s[n + 1..])))
  }

  /** The whole-text reading of the pattern: some non-empty digit prefix is
      the integer part, and what follows is nothing or a '.' and one or two
      digits. */
  ghost predicate IsPrice(s: string) {
    exists i :: 0 < i <= |s| && AllDigits(s[..i]) && PriceTail(s, i)
  }

  ghost predicate PriceTail(s: string, i: nat)
    requires i <= |s|
  {
    i == |s| || (s[i] == '.' && 2 <= |s| - i <= 3 && AllDigits(s[i + 1..]))
  }

  /** A digit prefix lies within the leading digit run (DigitRun). */
  lemma {:induction false} DigitsWithinRun(s: string, i: nat)
    requires i <= |s| && AllDigits(s[..i])
    ensures i <= |DigitRun(s)|
  {
    if i > 0 {
      assert s[..i][0] == s[0];
      assert s[1..][..i - 1] == s[..i][1..];
      DigitsWithinRun(s[1..], i - 1);
    }
  }

  /** The leading digit run stops at the first non-digit. */
  lemma {:induction false} RunStopsAt(s: string, i: nat)
    requires i <= |s| && (i == |s| || !IsDigit(s[i]))
    ensures |DigitRun(s)| <= i
  {
    if i > 0 && s != [] && IsDigit(s[0]) {
      assert i == |s| || s[1..][i - 1] == s[i];
      RunStopsAt(s[1..], i - 1);
    }
  }

  /** A digit prefix that is followed by the end or by a non-digit is the
      leading digit run. */
  lemma DigitRunIsLeading(s: string, i: nat)
    requires i <= |s| && AllDigits(s[..i]) && (i == |s| || !IsDigit(s[i]))
    ensures i == |DigitRun(s)|
  {
    DigitsWithinRun(s, i);
    RunStopsAt(s, i);
  }

  /** The matcher accepts exactly the texts the pattern describes. */
  lemma PriceMatchesMeaning(s: string)
    ensures PriceMatches(s) <==> IsPrice(s)
  {
    var n := |DigitRun(s)|;
    if PriceMatches(s) {
      assert 0 < n <= |s| && AllDigits(s[..n]) && PriceTail(s, n);
    }
    if IsPrice(s) {
      var i :| 0 < i <= |s| && AllDigits(s[..i]) && PriceTail(s, i);
      DigitRunIsLeading(s, i);
    }
  }

  lemma PriceExamplesAccepted()
    ensures PriceMatches("5000")
    ensures PriceMatches("499.99")
  {
    assert |DigitRun("5000"[3..])| == 1;
    assert |DigitRun("5000"[2..])| == 2;
    assert |DigitRun("5000"[1..])| == 3;
    assert |DigitRun("499.99"[3..])| == 0;
    assert |DigitRun("499.99"[2..])| == 1;
    assert |DigitRun("499.99"[1..])| == 2;
    assert |DigitRun("499.99")| == 3;
    assert "499.99"[4..] == "99";
  }

  lemma PriceExamplesRejected()
    ensures !PriceMatches("")
    ensures !PriceMatches("-5")
    ensures !PriceMatches(".5")
    ensures !PriceMatches("5.")
    ensures !PriceMatches("5.123")
  {
    assert |DigitRun("5."[1..])| == 0;
    assert |DigitRun("5.123"[1..])| == 0;
  }

  // ---------------------------------------------------------------------
  // createMarketListing

  /** The six checks, in the order they run. */
  datatype ListingError = BadTitle | BadCategory | NoDescription | NoContact | BadPrice | LongCurrency

  function Rank(e: ListingError): nat {
    match e
    case BadTitle => 0
    case BadCategory => 1
    case NoDescription => 2
    case NoContact => 3
    case BadPrice => 4
    case LongCurrency => 5
  }

  /** Whether the draft passes the check whose failure is `e`. */
  predicate Passes(d: Draft, e: ListingError) {
    match e
    case BadTitle => d.title != "" && |d.title| <= 120
    case BadCategory => IsCategory(d.category)
    case NoDescription => d.description != ""
    case NoContact => d.contact != ""
    case BadPrice => PriceMatches(d.price)
    case LongCurrency => |d.currency| <= 12
  }

  /** The checks of createMarketListing, stopping at the first that fails. */
  function CheckDraft(d: Draft): (r: Option<ListingError>)
    ensures r.None? <==> forall e :: Passes(d, e)
    ensures r.Some? ==> !Passes(d, r.value)
    ensures r.Some? ==> forall e :: Rank(e) < Rank(r.value) ==> Passes(d, e)
  {
    if !Passes(d, BadTitle) then Some(BadTitle)
    else if !Passes(d, BadCategory) then Some(BadCategory)
    else if !Passes(d, NoDescription) then Some(NoDescription)
    else if !Passes(d, NoContact) then Some(NoContact)
    else if !Passes(d, BadPrice) then Some(BadPrice)
    else if !Passes(d, LongCurrency) then Some(LongCurrency)
    else None
  }

  /** The message returned for each failed check. */
  function ErrorMessage(e: ListingError): string {
    match e
    case BadTitle => "Provide a listing title up to 120 characters."
    case BadCategory => "Choose a valid listing category."
    case NoDescription => "Include a short description of your offering."
    case NoContact => "Share a contact method such as Discord or an in-game mail handle."
    case BadPrice => "Enter a valid price such as 5000 or 499.99."
    case LongCurrency => "Currency label is too long."
  }

  /** What the database does with the insert: the statement cannot be
      prepared, it runs and reports the affected rows, or it throws. */
  datatype StoreOutcome = PrepareFailed | Executed(affectedRows: int) | Threw

  /** The outcome of createMarketListing. */
  datatype CreateResult = Invalid(error: ListingError) | Unavailable | NotPosted | Published

  /** The result of createMarketListing and the row it executed the insert
      with, if any. */
  datatype Creation = Creation(result: CreateResult, inserted: Option<(int, Draft)>)

  function ResultMessage(r: CreateResult): string {
    match r
    case Invalid(e) => ErrorMessage(e)
    case Unavailable => "Marketplace is temporarily unavailable."
    case NotPosted => "Unable to post the listing. Please try again."
    case Published => "Listing published to the Holonet Exchange!"
  }

  /** createMarketListing once the fields are read. */
  function Create(sellerId: int, d: Draft, store: StoreOutcome): Creation {
    match CheckDraft(d)
    case Some(e) => Creation(Invalid(e), None)
    case None =>
      match store
      case PrepareFailed => Creation(Unavailable, None)
      case Threw => Creation(NotPosted, Some((sellerId, d)))
      case Executed(n) => Creation(if n <= 0 then NotPosted else Published, Some((sellerId, d)))
  }

  function CreateListing(sellerId: int, p: Payload, store: StoreOutcome): Creation {
    Create(sellerId, ReadDraft(p), store)
  }

  /** The first failing check is reported and nothing is inserted; the insert
      is reached only when every check passes, and then carries the seller and
      the normalised fields. */
  lemma CreateGate(sellerId: int, d: Draft, store: StoreOutcome)
    ensures var c := Create(sellerId, d, store);
      && (c.result.Invalid? <==> exists e :: !Passes(d, e))
      && (c.result.Invalid? ==>
            && c.inserted.None?
            && !Passes(d, c.result.error)
            && forall e :: Rank(e) < Rank(c.result.error) ==> Passes(d, e))
      && (c.inserted.Some? ==> c.inserted == Some((sellerId, d)) && forall e :: Passes(d, e))
      && (c.result == Published <==> (forall e :: Passes(d, e)) && store.Executed? && store.affectedRows > 0)
  {
    var r := CheckDraft(d);
    if r.Some? {
      assert !Passes(d, r.value);
    }
  }

  /** A missing price reads as "0" and a missing currency as "CREDITS". */
  lemma ReadDraftDefaults(p: Payload)
    requires "price" !in p && "currency" !in p
    ensures ReadDraft(p).price == "0" && |ReadDraft(p).currency| == 7
  {
    assert IsTrimmed("0") && IsTrimmed("CREDITS");
  }

  /** Both defaults pass their checks: "0" is a price and "CREDITS" is short
      enough. */
  lemma CreateListingDefaults(p: Payload)
    requires "price" !in p && "currency" !in p
    ensures PriceMatches(ReadDraft(p).price) && |ReadDraft(p).currency| <= 12
  {
    ReadDraftDefaults(p);
    ZeroIsPrice();
  }

  lemma ZeroIsPrice()
    ensures PriceMatches("0")
  {
    assert |DigitRun("0"[1..])| == 0;
  }

  /** A title of more than 120 characters is refused even when the store
      would accept the row. */
  lemma LongTitleRejected(sellerId: int, d: Draft)
    requires |d.title| > 120
    ensures Create(sellerId, d, Executed(1)) == Creation(Invalid(BadTitle), None)
  {
  }

  // ---------------------------------------------------------------------
  // fetchActiveListings and fetchActiveListingsBySeller

  /** max(1, min(limit, most)). */
  function ClampLimit(limit: int, most: int): (r: int)
    requires most >= 1
    ensures 1 <= r <= most
    ensures 1 <= limit <= most ==> r == limit
    ensures limit < 1 ==> r == 1
    ensures limit > most ==> r == most
  {
    if limit < 1 then 1 else if limit > most then most else limit
  }

  /** The four statements fetchActiveListings can run, with their bound values. */
  datatype ActiveQuery =
    | SearchInCategory(pattern: string, category: string, limit: int)
    | SearchAll(pattern: string, limit: int)
    | InCategory(category: string, limit: int)
    | AllActive(limit: int)

  /** The normalised category key, when it names a known category. */
  function KnownCategory(category: Option<string>): Option<string> {
    var key := CategoryKey(category);
    if key != "" && IsCategory(key) then Some(key) else None
  }

  /** `$category !== null ? strtolower(trim($category)) : ''`. */
  function CategoryKey(category: Option<string>): string {
    match category case Some(c) => Lower(Trim(c)) case None => ""
  }

  function SearchTerm(search: Option<string>): string {
    match search case Some(s) => Trim(s) case None => ""
  }

  function ActiveListingsQuery(search: Option<string>, category: Option<string>, limit: int): ActiveQuery {
    var n := ClampLimit(limit, 100);
    var term := SearchTerm(search);
    var known := KnownCategory(category);
    if term != "" && known.Some? then SearchInCategory("%" + term + "%", known.value, n)
    else if term != "" then SearchAll("%" + term + "%", n)
    else if known.Some? then InCategory(known.value, n)
    else AllActive(n)
  }

  /** The query filters by text exactly when the trimmed search is non-empty,
      by category exactly when the normalised key is one of the nine, and its
      limit is the requested one clamped to [1, 100]. */
  lemma ActiveQueryChoice(search: Option<string>, category: Option<string>, limit: int)
    ensures var q := ActiveListingsQuery(search, category, limit);
      && ((q.SearchInCategory? || q.SearchAll?) <==> SearchTerm(search) != "")
      && ((q.SearchInCategory? || q.InCategory?) <==> KnownCategory(category).Some?)
      && ((q.SearchInCategory? || q.SearchAll?) ==> q.pattern == "%" + SearchTerm(search) + "%")
      && ((q.SearchInCategory? || q.InCategory?) ==>
            q.category == KnownCategory(category).value && IsCategory(q.category))
      && 1 <= q.limit <= 100
      && (1 <= limit <= 100 ==> q.limit == limit)
  {
  }

  /** An unknown category is ignored rather than refused: the query is the
      one without a category filter. */
  lemma UnknownCategoryIgnored(search: Option<string>, limit: int)
    ensures ActiveListingsQuery(search, Some("starships"), limit) == ActiveListingsQuery(search, None, limit)
  {
    StarshipsNotACategory();
  }

  lemma StarshipsKey()
    ensures |CategoryKey(Some("starships"))| == 9 && CategoryKey(Some("starships"))[0] == 's'
  {
    assert IsTrimmed("starships");
    assert Trim("starships") == "starships";
    assert Lower("starships")[0] == 's';
  }

  lemma StarshipsNotACategory()
    ensures KnownCategory(Some("starships")) == None
  {
    StarshipsKey();
    NoNineLetterSKey(CategoryKey(Some("starships")));
  }

  /** No category key has nine letters and starts with 's'. */
  lemma NoNineLetterSKey(k: string)
    requires |k| == 9 && k[0] == 's'
    ensures !IsCategory(k)
  {
  }

  /** Category keys are matched after lower-casing and trimming. */
  lemma KnownCategoryNormalises(c: string)
    ensures KnownCategory(Some(c)) == KnownCategory(Some(Lower(Trim(c))))
  {
    LowerTrimIdempotent(c);
    assert CategoryKey(Some(Lower(Trim(c)))) == CategoryKey(Some(c));
  }

  /** fetchActiveListingsBySeller's limit: the requested one clamped to [1, 50]. */
  function SellerListingsLimit(limit: int): (r: int)
    ensures 1 <= r <= 50
    ensures 1 <= limit <= 50 ==> r == limit
    ensures limit > 50 ==> r == 50
    ensures limit < 1 ==> r == 1
  {
    ClampLimit(limit, 50)
  }
}
