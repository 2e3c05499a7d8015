// The record the handler builds from the request body: seventeen columns,
// each copied from the body property of the same name with `??` supplying a
// default when the property is undefined or null. No column is type-checked:
// whatever non-null JSON value the body holds is copied as it is.

module LeadRecord {
  import opened JsValue

  datatype Lead = Lead(
    source: Value,
    pagePath: Value,
    name: Value,
    email: Value,
    phone: Value,
    leadType: Value,
    message: Value,
    areas: Value,
    towns: Value,
    priceMin: Value,
    priceMax: Value,
    beds: Value,
    baths: Value,
    propertyType: Value,
    timeline: Value,
    financing: Value,
    booked: Value)

  /** The seventeen columns. */
  datatype Col =
    Source | PagePath | Name | EmailColumn | Phone | LeadType
    | Message | Areas | Towns | PriceMin | PriceMax | Beds
    | Baths | PropertyType | Timeline | Financing | Booked

  /** The column's name, which is also the body property it is read from. */
  function Key(c: Col): string
  {
    match c
    case Source => "source"
    case PagePath => "page_path"
    case Name => "name"
    case EmailColumn => "email"
    case Phone => "phone"
    case LeadType => "lead_type"
    case Message => "message"
    case Areas => "areas"
    case Towns => "towns"
    case PriceMin => "price_min"
    case PriceMax => "price_max"
    case Beds => "beds"
    case Baths => "baths"
    case PropertyType => "property_type"
    case Timeline => "timeline"
    case Financing => "financing"
    case Booked => "booked"
  }

  /** The seventeen property names the handler reads. */
  const ColumnNames: set<string> := {
    "source", "page_path", "name", "email", "phone", "lead_type", "message",
    "areas", "towns", "price_min", "price_max", "beds", "baths",
    "property_type", "timeline", "financing", "booked"}

  /** The property names in ColumnNames are exactly the columns' names. */
  lemma ColumnNamesAreKeys(k: string)
    ensures k in ColumnNames <==> exists c: Col :: Key(c) == k
  {
    if k in ColumnNames {
      var c :=
        if k == "source" then Source else if k == "page_path" then PagePath
        else if k == "name" then Name else if k == "email" then EmailColumn
        else if k == "phone" then Phone else if k == "lead_type" then LeadType
        else if k == "message" then Message else if k == "areas" then Areas
        else if k == "towns" then Towns else if k == "price_min" then PriceMin
        else if k == "price_max" then PriceMax else if k == "beds" then Beds
        else if k == "baths" then Baths else if k == "property_type" then PropertyType
        else if k == "timeline" then Timeline else if k == "financing" then Financing
        else Booked;
      assert Key(c) == k;
    }
  }

  /** The value a record holds in a column. */
  function Get(l: Lead, c: Col): Value
  {
    match c
    case Source => l.source
    case PagePath => l.pagePath
    case Name => l.name
    case EmailColumn => l.email
    case Phone => l.phone
    case LeadType => l.leadType
    case Message => l.message
    case Areas => l.areas
    case Towns => l.towns
    case PriceMin => l.priceMin
    case PriceMax => l.priceMax
    case Beds => l.beds
    case Baths => l.baths
    case PropertyType => l.propertyType
    case Timeline => l.timeline
    case Financing => l.financing
    case Booked => l.booked
  }

  /** The right-hand side of each column's `??`. */
  function Default(c: Col): Value
  {
    match c
    case Source => Str("website")
    case LeadType => Str("unknown")
    case Booked => Bool(false)
    case _ => Null
  }

  /** The object literal `{ source: body.source ?? "website", ... }`. */
  function Normalise(body: map<string, Value>): (r: Lead)
    ensures r.source != Null && r.leadType != Null && r.booked != Null
  {
    Lead(
      source := Coalesce(Lookup(body, "source"), Str("website")),
      pagePath := Coalesce(Lookup(body, "page_path"), Null),
      name := Coalesce(Lookup(body, "name"), Null),
      email := Coalesce(Lookup(body, "email"), Null),
      phone := Coalesce(Lookup(body, "phone"), Null),
      leadType := Coalesce(Lookup(body, "lead_type"), Str("unknown")),
      message := Coalesce(Lookup(body, "message"), Null),
      areas := Coalesce(Lookup(body, "areas"), Null),
      towns := Coalesce(Lookup(body, "towns"), Null),
      priceMin := Coalesce(Lookup(body, "price_min"), Null),
      priceMax := Coalesce(Lookup(body, "price_max"), Null),
      beds := Coalesce(Lookup(body, "beds"), Null),
      baths := Coalesce(Lookup(body, "baths"), Null),
      propertyType := Coalesce(Lookup(body, "property_type"), Null),
      timeline := Coalesce(Lookup(body, "timeline"), Null),
      financing := Coalesce(Lookup(body, "financing"), Null),
      booked := Coalesce(Lookup(body, "booked"), Bool(false)))
  }

  /** A record the literal can produce: the three columns with a non-null
      default are never null. */
  predicate WellFormed(l: Lead)
  {
    l.source != Null && l.leadType != Null && l.booked != Null
  }

  /** Every column is its body property when that is present and not null
      (an empty string, 0 and false included), and the column's default otherwise. */
  lemma NormaliseColumn(body: map<string, Value>, c: Col)
    ensures Key(c) in body && body[Key(c)] != Null ==> Get(Normalise(body), c) == body[Key(c)]
    ensures (Key(c) !in body || body[Key(c)] == Null) ==> Get(Normalise(body), c) == Default(c)
  {
  }

  /** A column whose property is absent or null holds its default: `"website"`
      for `source`, `"unknown"` for `lead_type`, `false` for `booked`, and null
      for every other column. */
  lemma Defaults(body: map<string, Value>, c: Col)
    ensures ("source" !in body || body["source"] == Null) ==> Normalise(body).source == Str("website")
    ensures ("lead_type" !in body || body["lead_type"] == Null) ==> Normalise(body).leadType == Str("unknown")
    ensures ("booked" !in body || body["booked"] == Null) ==> Normalise(body).booked == Bool(false)
    ensures (Key(c) !in body || body[Key(c)] == Null) ==>
              (Get(Normalise(body), c) == Null <==> c !in {Source, LeadType, Booked})
  {
    NormaliseColumn(body, c);
  }

  /** An empty body gives the all-defaults record. */
  lemma EmptyBody()
    ensures Normalise(map[]) == Lead(Str("website"), Null, Null, Null, Null, Str("unknown"),
                                     Null, Null, Null, Null, Null, Null, Null, Null, Null, Null, Bool(false))
  {
  }

  /** A body holding only a non-null `email` gives the all-defaults record
      with that email. */
  lemma EmailOnlyBody(email: Value)
    requires email != Null
    ensures Normalise(map["email" := email]) ==
              Lead(Str("website"), Null, Null, email, Null, Str("unknown"),
                   Null, Null, Null, Null, Null, Null, Null, Null, Null, Null, Bool(false))
  {
  }

  /** A body holding only a non-null `phone` gives the all-defaults record
      with that phone. */
  lemma PhoneOnlyBody(phone: Value)
    requires phone != Null
    ensures Normalise(map["phone" := phone]) ==
              Lead(Str("website"), Null, Null, Null, phone, Str("unknown"),
                   Null, Null, Null, Null, Null, Null, Null, Null, Null, Null, Bool(false))
  {
  }

  /** Properties other than the seventeen column names have no effect,
      whatever they hold. */
  lemma IgnoresUnknownProperties(body: map<string, Value>, extra: map<string, Value>)
    requires forall k | k in extra :: k !in ColumnNames
    ensures Normalise(body + extra) == Normalise(body)
  {
  }
}
