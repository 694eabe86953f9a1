/** `categorize_product`: an ordered first-match chain of keyword rules over the
    lower-cased title, with "Otros" as the fallback. */
module Classifier {
  import opened Text

  /** One branch of the chain: it fires when the lower-cased title contains one of
      `keywords` and none of `unless`; then the title gets `category`. */
  datatype Rule = Rule(keywords: seq<string>, unless: seq<string>, category: string)

  const Fallback: string := "Otros"

  /** The chain in source order. Only the stove rule has an exclusion. */
  const Rules: seq<Rule> := [
    Rule(["televisor", "led", "smart tv", "uhd", "4k", "nanocell"], [], "Televisores"),
    Rule(["parlante", "torre de sonido", "barra de sonido", "minicomponente", "sound bar"], [], "Parlantes"),
    Rule(["celular", "iphone", "smartphone", "honor", "infinix", "tecno"], [], "Celulares"),
    Rule(["laptop", "portátil", "notebook", "core i", "ryzen"], [], "Laptops"),
    Rule(["impresora", "multifunción", "epson", "canon", "brother"], [], "Impresoras"),
    Rule(["cocina a gas", "cocina", "hornilla", "quemador", "indurama", "mabe"], ["microonda"], "Cocina a gas"),
    Rule(["refrigeradora", "side by side", "top freezer"], [], "Refrigeradoras"),
    Rule(["frigobar"], [], "Frigobares"),
    Rule(["congelador", "horizontal"], [], "Congeladores"),
    Rule(["vitrina"], [], "Vitrinas"),
    Rule(["lavadora", "automática", "semiautomática"], [], "Lavadoras"),
    Rule(["secadora"], [], "Secadoras"),
    Rule(["torre de lavado"], [], "Torres de lavado"),
    Rule(["aire acondicionado", "split", "btu"], [], "Aire Acondicionado Split"),
    Rule(["cafetera", "máquina de café"], [], "Cafeteras"),
    Rule(["canguilera"], [], "Canguileras"),
    Rule(["microonda", "microondas"], [], "Horno Microondas"),
    Rule(["freidora", "airfryer"], [], "Freidoras"),
    Rule(["licuadora"], [], "Licuadoras"),
    Rule(["olla", "arrocera"], [], "Ollas"),
    Rule(["exprimidor", "extractor de jugo"], [], "Exprimidores"),
    Rule(["sanduchera", "grill"], [], "Sanducheras"),
    Rule(["plancha"], [], "Planchas"),
    Rule(["hervidor", "eléctrico"], [], "Hervidores")
  ]

  /** Positions of the rules the properties below talk about. */
  const TvRule: nat := 0
  const StoveRule: nat := 5
  const MicrowaveRule: nat := 16

  /** The 24 rule labels. */
  const Labels: set<string> := set k | 0 <= k < |Rules| :: Rules[k].category
  /** The 25 labels the classifier can return: the rule labels and the fallback. */
  ghost const AllLabels: set<string> := Labels + {Fallback}

  predicate Fires(rule: Rule, s: string)
  {
    ContainsAny(s, rule.keywords) && !ContainsAny(s, rule.unless)
  }

  /** Index of the first rule of `rules` that fires on `s`, or `|rules|` if none does
      (see FirstMatchSpec). */
  function FirstMatch(rules: seq<Rule>, s: string): (k: nat)
    ensures k <= |rules|
  {
    if rules == [] then 0
    else if Fires(rules[0], s) then 0
    else 1 + FirstMatch(rules[1..], s)
  }

  /** The rule FirstMatch picks fires, and no rule before it does. */
  lemma {:induction false} FirstMatchSpec(rules: seq<Rule>, s: string)
    ensures FirstMatch(rules, s) < |rules| ==> Fires(rules[FirstMatch(rules, s)], s)
    ensures forall j :: 0 <= j < FirstMatch(rules, s) ==> !Fires(rules[j], s)
  {
    if rules != [] && !Fires(rules[0], s) {
      FirstMatchSpec(rules[1..], s);
      forall j | 0 < j < FirstMatch(rules, s) ensures !Fires(rules[j], s) {
        assert rules[j] == rules[1..][j - 1];
      }
    }
  }

  /** `categorize_product(title)`. */
  function Categorize(title: string): (r: string)
  {
    var s := Lower(title);
    var k := FirstMatch(Rules, s);
    if k < |Rules| then Rules[k].category else Fallback
  }

  /** The classifier is total: its answer is one of the 25 labels, never "". */
  lemma CategorizeTotal(title: string)
    ensures Categorize(title) in AllLabels
    ensures Categorize(title) != ""
  {
    var k := FirstMatch(Rules, Lower(title));
    if k < |Rules| {
      LabelsDistinct(k, k);
      assert Rules[k].category in Labels;
    }
  }

  /** No two rules share a label, and none uses the fallback label. */
  lemma LabelsDistinct(i: nat, j: nat)
    requires i < |Rules| && j < |Rules|
    ensures Rules[i].category == Rules[j].category ==> i == j
    ensures Rules[i].category != Fallback
  {
  }

  /** Every keyword is non-empty. */
  lemma KeywordsNonEmpty()
    ensures forall j, w :: 0 <= j < |Rules| && w in Rules[j].keywords ==> w != ""
  {
  }

  /** First match wins: the title gets rule k's label exactly when rule k fires and no
      earlier rule does. */
  lemma {:induction false} CategorizeIsFirstFiring(title: string, k: nat)
    requires k < |Rules|
    ensures Categorize(title) == Rules[k].category <==>
              Fires(Rules[k], Lower(title)) && forall j :: 0 <= j < k ==> !Fires(Rules[j], Lower(title))
  {
    var s := Lower(title);
    var m := FirstMatch(Rules, s);
    FirstMatchSpec(Rules, s);
    if m < |Rules| {
      LabelsDistinct(m, k);
    } else {
      LabelsDistinct(k, k);
    }
    if Fires(Rules[k], s) && forall j :: 0 <= j < k ==> !Fires(Rules[j], s) {
      assert !(m < k) && !(k < m);
    }
  }

  /** A title with a TV keyword (any case) is a TV, whatever else it contains. */
  lemma TvKeywordWins(title: string)
    requires ContainsAny(Lower(title), Rules[TvRule].keywords)
    ensures Categorize(title) == "Televisores"
  {
    CategorizeIsFirstFiring(title, TvRule);
  }

  /** The stove rule's exclusion: a title mentioning "microonda" is never a gas stove. */
  lemma MicrowaveIsNeverStove(title: string)
    requires Contains(Lower(title), "microonda")
    ensures Categorize(title) != "Cocina a gas"
  {
    assert !Fires(Rules[StoveRule], Lower(title));
    CategorizeIsFirstFiring(title, StoveRule);
  }

  /** A stove keyword without "microonda", and no keyword of an earlier rule, makes a gas
      stove. */
  lemma StoveKeywordWithoutMicrowave(title: string)
    requires ContainsAny(Lower(title), Rules[StoveRule].keywords)
    requires !Contains(Lower(title), "microonda")
    requires forall j :: 0 <= j < StoveRule ==> !ContainsAny(Lower(title), Rules[j].keywords)
    ensures Categorize(title) == "Cocina a gas"
  {
    assert Rules[StoveRule].unless == ["microonda"];
    assert forall j :: 0 <= j < StoveRule ==> Rules[j].unless == [];
    CategorizeIsFirstFiring(title, StoveRule);
  }

  /** A microwave title that no earlier rule claims (the stove rule being switched off by
      the exclusion) is classified as a microwave oven. */
  lemma MicrowaveReachesItsRule(title: string)
    requires Contains(Lower(title), "microonda")
    requires forall j :: 0 <= j < MicrowaveRule && j != StoveRule ==>
               !ContainsAny(Lower(title), Rules[j].keywords)
    ensures Categorize(title) == "Horno Microondas"
  {
    var s := Lower(title);
    MicrowaveRuleFires(s);
    StoveRuleHeldBack(s);
    forall j | 0 <= j < MicrowaveRule ensures !Fires(Rules[j], s) {
      if j != StoveRule {
        assert !ContainsAny(s, Rules[j].keywords);
      }
    }
    CategorizeIsFirstFiring(title, MicrowaveRule);
  }

  /** "microonda" alone makes the microwave rule fire. */
  lemma MicrowaveRuleFires(s: string)
    requires Contains(s, "microonda")
    ensures Fires(Rules[MicrowaveRule], s)
  {
    var microwave := Rules[MicrowaveRule];
    assert microwave.keywords[0] == "microonda" && microwave.unless == [];
  }

  /** "microonda" switches the stove rule off, whatever stove keyword is present. */
  lemma StoveRuleHeldBack(s: string)
    requires Contains(s, "microonda")
    ensures !Fires(Rules[StoveRule], s)
  {
    assert Rules[StoveRule].unless == ["microonda"];
  }

  /** Only the stove rule has an exclusion list. */
  lemma OnlyStoveExcludes(j: nat)
    requires j < |Rules| && j != StoveRule
    ensures Rules[j].unless == []
  {
  }

  /** A title with a keyword of some rule makes some rule fire: the stove rule's
      exclusion only holds back a title that the microwave rule then takes. */
  lemma {:induction false} KeywordMakesSomeRuleFire(s: string, j: nat)
    requires j < |Rules| && ContainsAny(s, Rules[j].keywords)
    ensures FirstMatch(Rules, s) < |Rules|
  {
    FirstMatchSpec(Rules, s);
    if j != StoveRule {
      OnlyStoveExcludes(j);
      assert Fires(Rules[j], s);
    } else if ContainsAny(s, Rules[StoveRule].unless) {
      assert Contains(s, "microonda");
      assert Rules[MicrowaveRule].keywords[0] == "microonda";
      assert Fires(Rules[MicrowaveRule], s);
    } else {
      assert Fires(Rules[j], s);
    }
  }

  /** The fallback is reached exactly when the lower-cased title contains no keyword of
      any rule. */
  lemma {:induction false} OtrosIffNoKeyword(title: string)
    ensures Categorize(title) == Fallback <==>
              forall j :: 0 <= j < |Rules| ==> !ContainsAny(Lower(title), Rules[j].keywords)
  {
    var s := Lower(title);
    var m := FirstMatch(Rules, s);
    FirstMatchSpec(Rules, s);
    if m < |Rules| {
      LabelsDistinct(m, m);
    }
    if j :| 0 <= j < |Rules| && ContainsAny(s, Rules[j].keywords) {
      KeywordMakesSomeRuleFire(s, j);
    }
  }

  /** The empty title falls back to "Otros". */
  lemma EmptyTitleIsOtros()
    ensures Categorize("") == Fallback
  {
    KeywordsNonEmpty();
    forall j, w | 0 <= j < |Rules| && w in Rules[j].keywords ensures !Contains("", w) {
      ContainsEmpty("", w);
    }
    OtrosIffNoKeyword("");
  }

  /** Classification sees only the lower-cased title. */
  lemma CategorizeIgnoresCase(title: string)
    ensures Categorize(Lower(title)) == Categorize(title)
  {
    LowerIdempotent(title);
  }
}
