/** The entry normalisation of `fetch_products`: from the dictionary tree that the
    XML-to-dict library returns to a list of classified products. The library itself is
    not modelled; its output is. The title classifier is a parameter `classify`; the
    fetcher passes `Classifier.Categorize`, as `fetch_products` calls `categorize_product`. */
module Feed {
  import opened Http

  /** A product as the service returns it. */
  datatype Product = Product(title: string, summary: string, link: string, category: string)

  /** The value under a key of an entry: text, or a dictionary when the element carries
      attributes (`{"@href": ..., "@rel": ...}`, `{"@type": ..., "#text": ...}`). */
  datatype Value = Str(text: string) | Dict(fields: map<string, string>)

  /** One `<entry>` element as a dictionary. */
  type Entry = map<string, Value>

  /** What `data.get('feed', {}).get('entry', [])` yields: nothing when either key is
      missing, a bare dictionary for a single `<entry>`, a list for several. */
  datatype Entries = Absent | Single(entry: Entry) | Many(entries: seq<Entry>)

  /** A product computed from its title carries that title's category. */
  ghost predicate Classified(p: Product, classify: string -> string)
  {
    p.category == classify(p.title)
  }

  /** The list the loop walks: a single entry is wrapped, a missing one is the empty list. */
  function Normalize(tree: Entries): (es: seq<Entry>)
    ensures tree.Absent? ==> es == []
    ensures tree.Single? ==> es == [tree.entry]
    ensures tree.Many? ==> es == tree.entries
  {
    match tree
    case Absent => []
    case Single(e) => [e]
    case Many(es) => es
  }

  /** `entry.get(key, '')` for a field used as a string. A dictionary there makes the
      title's `lower()` or the product's validation raise, which surfaces as status 500. */
  function TextField(e: Entry, key: string): (r: Result<string>)
    ensures key !in e ==> r == Ok("")
    ensures key in e && e[key].Str? ==> r == Ok(e[key].text)
    ensures key in e && e[key].Dict? ==> r == Err(InternalServerError)
  {
    if key !in e then Ok("")
    else match e[key]
      case Str(t) => Ok(t)
      case Dict(_) => Err(InternalServerError)
  }

  /** `entry.get('link', '')`, reduced to its `@href` when it is a dictionary. */
  function LinkField(e: Entry): (link: string)
    ensures "link" !in e ==> link == ""
    ensures "link" in e && e["link"].Str? ==> link == e["link"].text
    ensures "link" in e && e["link"].Dict? ==> link == if "@href" in e["link"].fields then e["link"].fields["@href"] else ""
  {
    if "link" !in e then ""
    else match e["link"]
      case Str(t) => t
      case Dict(m) => if "@href" in m then m["@href"] else ""
  }

  /** One loop iteration: read the three fields, classify the title, build the product. */
  function DecodeEntry(e: Entry, classify: string -> string): (r: Result<Product>)
    ensures r.Ok? <==> TextField(e, "title").Ok? && TextField(e, "summary").Ok?
    ensures r.Err? ==> r.code == InternalServerError
    ensures r.Ok? ==> Classified(r.value, classify)
    ensures r.Ok? ==> (r.value.title == TextField(e, "title").value &&
                       r.value.summary == TextField(e, "summary").value &&
                       r.value.link == LinkField(e))
  {
    match TextField(e, "title")
    case Err(code) => Err(code)
    case Ok(title) =>
      match TextField(e, "summary")
      case Err(code) => Err(code)
      case Ok(summary) => Ok(Product(title, summary, LinkField(e), classify(title)))
  }

  /** The whole loop over a list of entries: one product per entry in entry order, or
      status 500 as soon as one entry fails. */
  function DecodeAll(es: seq<Entry>, classify: string -> string): (r: Result<seq<Product>>)
    ensures r.Ok? <==> forall i :: 0 <= i < |es| ==> DecodeEntry(es[i], classify).Ok?
    ensures r.Err? ==> r.code == InternalServerError
    ensures r.Ok? ==> |r.value| == |es| && forall i :: 0 <= i < |es| ==> r.value[i] == DecodeEntry(es[i], classify).value
  {
    if es == [] then Ok([])
    else
      match DecodeEntry(es[0], classify)
      case Err(code) => Err(code)
      case Ok(p) =>
        match DecodeAll(es[1..], classify)
        case Err(code) => Err(code)
        case Ok(ps) => Ok([p] + ps)
  }

  /** Decoding of the parsed feed. */
  function Decode(tree: Entries, classify: string -> string): (r: Result<seq<Product>>)
  {
    DecodeAll(Normalize(tree), classify)
  }

  /** Decoding as the source performs it: normalise `entries`, then build the list. */
  method DecodeFeed(tree: Entries, classify: string -> string) returns (r: Result<seq<Product>>)
    ensures r == Decode(tree, classify)
  {
    var entries: seq<Entry>;
    match tree {
      case Absent => entries := [];
      case Single(e) => entries := [e];
      case Many(es) => entries := es;
    }
    r := DecodeEntries(entries, classify);
  }

  /** The `for entry in entries` loop, appending one product per entry. */
  method DecodeEntries(entries: seq<Entry>, classify: string -> string) returns (r: Result<seq<Product>>)
    ensures r == DecodeAll(entries, classify)
  {
    var products: seq<Product> := [];
    for i := 0 to |entries|
      invariant DecodeAll(entries[..i], classify) == Ok(products)
    {
      var p := DecodeEntry(entries[i], classify);
      DecodeAllAppend(entries[..i], entries[i], classify);
      assert entries[..i + 1] == entries[..i] + [entries[i]];
      if p.Err? {
        DecodeAllPrefixFails(entries, i + 1, classify);
        return Err(p.code);
      }
      products := products + [p.value];
    }
    assert entries[..|entries|] == entries;
    return Ok(products);
  }

  /** Decoding one more entry extends the list by its product, or fails with it. */
  lemma {:induction false} DecodeAllAppend(es: seq<Entry>, e: Entry, classify: string -> string)
    ensures DecodeAll(es + [e], classify) ==
      if DecodeAll(es, classify).Err? then DecodeAll(es, classify)
      else if DecodeEntry(e, classify).Err? then Err(DecodeEntry(e, classify).code)
      else Ok(DecodeAll(es, classify).value + [DecodeEntry(e, classify).value])
  {
    if es == [] {
      assert es + [e] == [e] && [e][1..] == [];
      if DecodeEntry(e, classify).Ok? {
        var q := DecodeEntry(e, classify).value;
        assert [q] + [] == [] + [q];
      }
    } else {
      assert (es + [e])[0] == es[0];
      assert (es + [e])[1..] == es[1..] + [e];
      DecodeAllAppend(es[1..], e, classify);
      if DecodeEntry(es[0], classify).Ok? && DecodeAll(es[1..], classify).Ok? && DecodeEntry(e, classify).Ok? {
        var p, ps, q := DecodeEntry(es[0], classify).value, DecodeAll(es[1..], classify).value, DecodeEntry(e, classify).value;
        assert [p] + (ps + [q]) == ([p] + ps) + [q];
      }
    }
  }

  /** Once a prefix fails to decode, the whole list fails with status 500. */
  lemma {:induction false} DecodeAllPrefixFails(es: seq<Entry>, n: nat, classify: string -> string)
    requires n <= |es| && DecodeAll(es[..n], classify).Err?
    ensures DecodeAll(es, classify) == Err(InternalServerError)
  {
    var i :| 0 <= i < n && !DecodeEntry(es[..n][i], classify).Ok?;
    assert es[..n][i] == es[i];
  }

  /** Every decoded product carries the category of its own title. */
  lemma DecodedAreClassified(tree: Entries, classify: string -> string)
    requires Decode(tree, classify).Ok?
    ensures forall p :: p in Decode(tree, classify).value ==> Classified(p, classify)
  {
    var ps := Decode(tree, classify).value;
    forall p | p in ps ensures Classified(p, classify) {
      var i :| 0 <= i < |ps| && ps[i] == p;
    }
  }

  /** A missing `feed` or `entry` key yields no products, and no error. */
  lemma AbsentIsEmpty(classify: string -> string)
    ensures Decode(Absent, classify) == Ok([])
  {
  }

  /** A lone entry decodes as a one-element list does. */
  lemma SingleIsOneElementList(e: Entry, classify: string -> string)
    ensures Decode(Single(e), classify) == Decode(Many([e]), classify)
  {
  }

  /** A plain link and an `@href` attribute with the same text decode to the same link;
      a dictionary without `@href` and a missing link both give "". */
  lemma LinkShapes(e: Entry, s: string, m: map<string, string>)
    requires "link" !in e && "@href" !in m
    ensures LinkField(e["link" := Str(s)]) == LinkField(e["link" := Dict(map["@href" := s])]) == s
    ensures LinkField(e["link" := Dict(m)]) == LinkField(e) == ""
  {
  }
}
