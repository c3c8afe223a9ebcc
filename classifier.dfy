/**
 * The product classifier `normalizar_produto`: a free-text product label is
 * lower-cased and stripped, then matched against an ORDERED table of
 * (category, keywords) rules; the first category with a keyword occurring in
 * the label wins, and a missing label or a label no keyword hits is OUTROS.
 */
module Classifier {
  import opened Options
  import opened Text

  datatype Category = Novo | AmbosCartoes | Cartao | Beneficio | Nqb | Outros

  /** The text the pipeline stores in the `produto2` column. */
  function Label(c: Category): string {
    match c
    case Novo => "NOVO"
    case AmbosCartoes => "AMBOS CARTÕES"
    case Cartao => "CARTÃO"
    case Beneficio => "BENEFICIO"
    case Nqb => "NQB"
    case Outros => "OUTROS"
  }

  datatype Rule = Rule(category: Category, keywords: seq<string>)

  /** The rule table, in the order the dictionary literal lists it (insertion order is match order). */
  const Rules: seq<Rule> := [NovoRule, AmbosRule, CartaoRule, BeneficioRule, NqbRule]

  const NovoRule := Rule(Novo, ["novo", "credito novo", "negativos", "sefaz", "pmesp", "spprev", "tomador",
                                "super", "hubspot", "resgate", "carteira", "menor50", "menor 50", "virada"])
  const AmbosRule := Rule(AmbosCartoes, ["cartões", "cartoes", "benef & cartao", "cartões consignados",
                                         "benefício e cartão"])
  const CartaoRule := Rule(Cartao, ["cartão", "cartao", "consignado"])
  const BeneficioRule := Rule(Beneficio, ["benef", "beneficio", "complementar", "temporario", "tempo", "temp",
                                          "comlurb", "Benefício"])
  const NqbRule := Rule(Nqb, ["nqb"])

  /** `any(nome in nome_produto for nome in nomes_possiveis)` */
  function AnyOccurs(keywords: seq<string>, s: string): bool
  {
    |keywords| > 0 && (Occurs(keywords[0], s) || AnyOccurs(keywords[1..], s))
  }

  /** Some keyword of the list occurs in `s` exactly when `AnyOccurs` says so. */
  lemma {:induction false} AnyOccursIff(keywords: seq<string>, s: string)
    ensures AnyOccurs(keywords, s) <==> exists k :: k in keywords && Occurs(k, s)
  {
    if |keywords| > 0 {
      AnyOccursIff(keywords[1..], s);
      assert forall k :: k in keywords <==> k == keywords[0] || k in keywords[1..];
    }
  }

  /** The category of the first rule with a keyword in `s`, or OUTROS when none has one. */
  function FirstMatch(rules: seq<Rule>, s: string): Category
  {
    if rules == [] then Outros
    else if AnyOccurs(rules[0].keywords, s) then rules[0].category
    else FirstMatch(rules[1..], s)
  }

  /** `nome_produto.lower().strip()` */
  function NormalizeLabel(s: string): string {
    Trim(Lower(s))
  }

  /** `normalizar_produto`, as a function of the (possibly missing) label. */
  function Classify(nomeProduto: Option<string>): Category {
    match nomeProduto
    case None => Outros
    case Some(s) => FirstMatch(Rules, NormalizeLabel(s))
  }

  /** The loop of `normalizar_produto`: try the rules in order and return at the first hit. */
  method NormalizarProduto(nomeProduto: Option<string>) returns (produto: Category)
    ensures produto == Classify(nomeProduto)
  {
    if nomeProduto.None? {
      return Outros;
    }
    var nome := NormalizeLabel(nomeProduto.value);
    var i := 0;
    while i < |Rules|
      invariant 0 <= i <= |Rules|
      invariant FirstMatch(Rules[i..], nome) == FirstMatch(Rules, nome)
    {
      assert Rules[i..][1..] == Rules[i + 1..];
      if AnyOccurs(Rules[i].keywords, nome) {
        return Rules[i].category;
      }
      i := i + 1;
    }
    return Outros;
  }

  // ------------------------------------------------------------------ first match wins

  /** When rule `i` is the first rule that matches, its category is the answer. */
  lemma {:induction false} FirstMatchAt(rules: seq<Rule>, s: string, i: nat)
    requires i < |rules| && AnyOccurs(rules[i].keywords, s)
    requires forall j :: 0 <= j < i ==> !AnyOccurs(rules[j].keywords, s)
    ensures FirstMatch(rules, s) == rules[i].category
  {
    if i > 0 {
      assert !AnyOccurs(rules[0].keywords, s);
      FirstMatchAt(rules[1..], s, i - 1);
    }
  }

  /** When no rule matches, the answer is OUTROS. */
  lemma {:induction false} FirstMatchNone(rules: seq<Rule>, s: string)
    requires forall j :: 0 <= j < |rules| ==> !AnyOccurs(rules[j].keywords, s)
    ensures FirstMatch(rules, s) == Outros
  {
    if rules != [] {
      assert !AnyOccurs(rules[0].keywords, s);
      FirstMatchNone(rules[1..], s);
    }
  }

  /** The answer is always the category of the first matching rule, or OUTROS when none matches. */
  lemma {:induction false} FirstMatchCases(rules: seq<Rule>, s: string)
    ensures || (FirstMatch(rules, s) == Outros && forall j :: 0 <= j < |rules| ==> !AnyOccurs(rules[j].keywords, s))
            || (exists i :: 0 <= i < |rules| && FirstMatch(rules, s) == rules[i].category
                 && AnyOccurs(rules[i].keywords, s)
                 && forall j :: 0 <= j < i ==> !AnyOccurs(rules[j].keywords, s))
  {
    if rules != [] && !AnyOccurs(rules[0].keywords, s) {
      FirstMatchCases(rules[1..], s);
      if FirstMatch(rules[1..], s) == Outros && forall j :: 0 <= j < |rules| - 1 ==> !AnyOccurs(rules[1..][j].keywords, s) {
        forall j | 0 <= j < |rules| ensures !AnyOccurs(rules[j].keywords, s) {
          if j > 0 {
            assert rules[j] == rules[1..][j - 1];
          }
        }
      } else {
        var i :| 0 <= i < |rules| - 1 && FirstMatch(rules[1..], s) == rules[1..][i].category
                 && AnyOccurs(rules[1..][i].keywords, s)
                 && forall j :: 0 <= j < i ==> !AnyOccurs(rules[1..][j].keywords, s);
        forall j | 0 <= j < i + 1 ensures !AnyOccurs(rules[j].keywords, s) {
          if j > 0 {
            assert rules[j] == rules[1..][j - 1];
          }
        }
        assert rules[i + 1] == rules[1..][i];
      }
    }
  }

  /**
   * The table lists the five categories NOVO, AMBOS CARTÕES, CARTÃO,
   * BENEFICIO, NQB in this order, each once, and never OUTROS.
   */
  lemma RulesCategoriesDistinct()
    ensures |Rules| == 5
    ensures Rules[0].category == Novo && Rules[1].category == AmbosCartoes && Rules[2].category == Cartao
    ensures Rules[3].category == Beneficio && Rules[4].category == Nqb
    ensures forall a, b :: 0 <= a < b < |Rules| ==> Rules[a].category != Rules[b].category
    ensures forall a :: 0 <= a < |Rules| ==> Rules[a].category != Outros
  {
  }

  /**
   * A label is classified as the category of rule `i` exactly when one of that
   * rule's keywords occurs in the normalised label and no keyword of an earlier
   * rule does.
   */
  lemma ClassifyIsFirstMatchingRule(s: string, i: nat)
    requires i < |Rules|
    ensures Classify(Some(s)) == Rules[i].category
            <==> (AnyOccurs(Rules[i].keywords, NormalizeLabel(s))
                  && forall j :: 0 <= j < i ==> !AnyOccurs(Rules[j].keywords, NormalizeLabel(s)))
  {
    var n := NormalizeLabel(s);
    RulesCategoriesDistinct();
    if AnyOccurs(Rules[i].keywords, n) && forall j :: 0 <= j < i ==> !AnyOccurs(Rules[j].keywords, n) {
      FirstMatchAt(Rules, n, i);
    } else {
      FirstMatchCases(Rules, n);
    }
  }

  /** A label is OUTROS exactly when it is missing or no keyword of any rule occurs in it. */
  lemma ClassifyOutros(nomeProduto: Option<string>)
    ensures Classify(nomeProduto) == Outros
            <==> (nomeProduto.None?
                  || forall j :: 0 <= j < |Rules| ==> !AnyOccurs(Rules[j].keywords, NormalizeLabel(nomeProduto.value)))
  {
    RulesCategoriesDistinct();
    if nomeProduto.Some? {
      var n := NormalizeLabel(nomeProduto.value);
      if forall j :: 0 <= j < |Rules| ==> !AnyOccurs(Rules[j].keywords, n) {
        FirstMatchNone(Rules, n);
      } else {
        FirstMatchCases(Rules, n);
      }
    }
  }

  // ------------------------------------------------------------------ case and blanks

  /** Normalising an already normalised label changes nothing. */
  lemma NormalizeLabelIdempotent(s: string)
    ensures NormalizeLabel(NormalizeLabel(s)) == NormalizeLabel(s)
  {
    TrimLowerCommute(Trim(Lower(s)));
    LowerIdempotent(s);
    TrimLowerCommute(s);
    TrimIdempotent(Lower(s));
    calc {
      NormalizeLabel(NormalizeLabel(s));
      Trim(Lower(Trim(Lower(s))));
      Trim(Trim(Lower(Lower(s))));
      Trim(Trim(Lower(s)));
      Trim(Lower(s));
    }
  }

  /** Classification ignores letter case and the blanks around the label. */
  lemma ClassifyIgnoresCaseAndBlanks(s: string)
    ensures Classify(Some(s)) == Classify(Some(Lower(Trim(s))))
    ensures Classify(Some(s)) == Classify(Some(NormalizeLabel(s)))
  {
    NormalizeLabelIdempotent(s);
    TrimLowerCommute(s);
  }

  /** Upper-case keywords are dead: the normalised label never contains one. */
  lemma UpperCaseKeywordNeverMatches(s: string, k: string, c: char)
    requires c in k && IsUpper(c)
    ensures !Occurs(k, NormalizeLabel(s))
  {
    LowerHasNoUpper(s);
    MissingChar(k, NormalizeLabel(s), c);
  }

  /** In particular the keyword 'Benefício' of the BENEFICIO rule can never be the one that matches. */
  lemma BeneficioCapitalNeverMatches(s: string)
    ensures "Benefício" in Rules[3].keywords
    ensures !Occurs("Benefício", NormalizeLabel(s))
  {
    UpperCaseKeywordNeverMatches(s, "Benefício", 'B');
  }

  // ------------------------------------------------------------------ missing and empty labels

  lemma KeywordsNonEmpty()
    ensures forall j, k :: 0 <= j < |Rules| && k in Rules[j].keywords ==> |k| > 0
  {
  }

  /** A missing label, the empty label and an all-blank label are OUTROS. */
  lemma BlankLabelIsOutros(s: string)
    requires forall i :: 0 <= i < |s| ==> IsSpace(s[i])
    ensures Classify(None) == Outros
    ensures Classify(Some(s)) == Outros
    ensures Classify(Some("")) == Outros
  {
    forall i | 0 <= i < |s| ensures IsSpace(Lower(s)[i]) {
      LowerCharKeepsSpace(s[i]);
    }
    TrimAllBlank(Lower(s));
    TrimAllBlank("");
    KeywordsNonEmpty();
    forall j | 0 <= j < |Rules| ensures !AnyOccurs(Rules[j].keywords, "") {
      forall k | k in Rules[j].keywords ensures !Occurs(k, "") {
        OccursInEmpty(k);
      }
      AnyOccursIff(Rules[j].keywords, "");
    }
    FirstMatchNone(Rules, "");
  }

  // ------------------------------------------------------------------ rule order

  /** A label that hits a NOVO keyword is NOVO, whatever else it contains ("novo" beats "benef"). */
  lemma NovoBeatsEverything(s: string)
    requires AnyOccurs(Rules[0].keywords, NormalizeLabel(s))
    ensures Classify(Some(s)) == Novo
  {
    FirstMatchAt(Rules, NormalizeLabel(s), 0);
  }

  /** A lower-case label without surrounding blanks is its own normal form. */
  lemma NormalLabel(s: string)
    requires forall c :: c in s ==> !IsUpper(c)
    requires |s| > 0 ==> !IsSpace(s[0]) && !IsSpace(s[|s| - 1])
    ensures NormalizeLabel(s) == s
  {
    assert Lower(s) == s;
    TrimNoEdges(s);
  }

  lemma NovoBeneficioNormal()
    ensures NormalizeLabel("novo benefício") == "novo benefício"
  {
    NormalLabel("novo benefício");
  }

  lemma CartoesConsignadosNormal()
    ensures NormalizeLabel("cartões consignados") == "cartões consignados"
  {
    NormalLabel("cartões consignados");
  }

  /** "novo benefício" holds a NOVO and a BENEFICIO keyword, and is NOVO. */
  lemma NovoBeneficioIsNovo()
    ensures Occurs("novo", "novo benefício") && Occurs("benef", "novo benefício")
    ensures Classify(Some("novo benefício")) == Novo
  {
    var s := "novo benefício";
    NovoBeneficioNormal();
    OccursPrefix("novo", s);
    assert OccursAt("benef", s, 5) by {
      assert s[5..10] == ['b', 'e', 'n', 'e', 'f'];
    }
    assert "novo" in Rules[0].keywords;
    NovoBeatsEverything(s);
  }

  /** A two-letter keyword that is absent from both halves and from the seam is absent from the whole. */
  lemma NotOccursPair(k: string, x: string, y: string)
    requires |k| == 2 && !Occurs(k, x) && !Occurs(k, y)
    requires |x| > 0 && |y| > 0 ==> x[|x| - 1] != k[0] || y[0] != k[1]
    ensures !Occurs(k, x + y)
  {
    if Occurs(k, x + y) {
      OccursPairSplit(k, x, y);
    }
  }

  /** A keyword with an absent piece is absent. */
  lemma NotOccursPiece(k: string, s: string, a: nat, b: nat)
    requires a <= b <= |k| && !Occurs(k[a..b], s)
    ensures !Occurs(k, s)
  {
    if Occurs(k, s) {
      OccursSub(k, s, a, b);
    }
  }

  lemma CarteiraNotInCartoesConsignados()
    ensures !Occurs("carteira", "cartões consignados")
  {
    // the piece "te" of "carteira" is nowhere in the label
    MissingChar("te", "cart", 'e');
    MissingChar("te", "ões consignados", 't');
    NotOccursPair("te", "cart", "ões consignados");
    assert "cart" + "ões consignados" == "cartões consignados";
    assert "carteira"[3..5] == "te";
    NotOccursPiece("carteira", "cartões consignados", 3, 5);
  }

  lemma ResgateNotInCartoesConsignados()
    ensures !Occurs("resgate", "cartões consignados")
  {
    // the piece "sg" of "resgate" is nowhere in the label
    MissingChar("sg", "ignado", 's');
    MissingChar("sg", "s", 'g');
    NotOccursPair("sg", "ignado", "s");
    assert "ignado" + "s" == "ignados";
    MissingChar("sg", " cons", 'g');
    NotOccursPair("sg", " cons", "ignados");
    assert " cons" + "ignados" == " consignados";
    MissingChar("sg", "cartões", 'g');
    NotOccursPair("sg", "cartões", " consignados");
    assert "cartões" + " consignados" == "cartões consignados";
    assert "resgate"[2..4] == "sg";
    NotOccursPiece("resgate", "cartões consignados", 2, 4);
  }

  /** Twelve NOVO keywords each hold a letter (v, f, p, m, u or h) that "cartões consignados" lacks. */
  lemma NovoKeywordsWithV()
    ensures !Occurs("novo", "cartões consignados") && !Occurs("credito novo", "cartões consignados")
    ensures !Occurs("negativos", "cartões consignados") && !Occurs("virada", "cartões consignados")
  {
    MissingChar("novo", "cartões consignados", 'v');
    MissingChar("credito novo", "cartões consignados", 'v');
    MissingChar("negativos", "cartões consignados", 'v');
    MissingChar("virada", "cartões consignados", 'v');
  }

  lemma NovoKeywordsWithM()
    ensures !Occurs("tomador", "cartões consignados") && !Occurs("menor50", "cartões consignados")
    ensures !Occurs("menor 50", "cartões consignados")
  {
    MissingChar("tomador", "cartões consignados", 'm');
    MissingChar("menor50", "cartões consignados", 'm');
    MissingChar("menor 50", "cartões consignados", 'm');
  }

  lemma NovoKeywordsWithP()
    ensures !Occurs("pmesp", "cartões consignados") && !Occurs("spprev", "cartões consignados")
  {
    MissingChar("pmesp", "cartões consignados", 'p');
    MissingChar("spprev", "cartões consignados", 'p');
  }

  lemma NovoKeywordsWithOthers()
    ensures !Occurs("sefaz", "cartões consignados") && !Occurs("super", "cartões consignados")
    ensures !Occurs("hubspot", "cartões consignados")
  {
    MissingChar("sefaz", "cartões consignados", 'f');
    MissingChar("super", "cartões consignados", 'u');
    MissingChar("hubspot", "cartões consignados", 'h');
  }

  lemma NoNovoKeywordInCartoesConsignados()
    ensures !AnyOccurs(Rules[0].keywords, "cartões consignados")
  {
    CarteiraNotInCartoesConsignados();
    ResgateNotInCartoesConsignados();
    NovoKeywordsWithV();
    NovoKeywordsWithM();
    NovoKeywordsWithP();
    NovoKeywordsWithOthers();
  }

  /** "cartões consignados" holds the AMBOS CARTÕES keyword "cartões" and the CARTÃO keyword "consignado". */
  lemma CartoesConsignadosKeywords()
    ensures Occurs("consignado", "cartões consignados") && "consignado" in Rules[2].keywords
    ensures AnyOccurs(Rules[1].keywords, "cartões consignados")
  {
    var s := "cartões consignados";
    assert OccursAt("consignado", s, 8) by {
      assert s[8..18] == ['c', 'o', 'n', 's', 'i', 'g', 'n', 'a', 'd', 'o'];
    }
    OccursPrefix("cartões", s);
    assert "cartões" in Rules[1].keywords;
  }

  /** A label with an AMBOS CARTÕES keyword and no NOVO keyword is AMBOS CARTÕES, whatever CARTÃO keyword it holds. */
  lemma AmbosBeatsCartao(n: string)
    requires !AnyOccurs(NovoRule.keywords, n)
    requires AnyOccurs(AmbosRule.keywords, n)
    ensures FirstMatch(Rules, n) == AmbosCartoes
  {
    assert Rules[1..][0] == AmbosRule;
  }

  lemma CartoesConsignadosFirstMatch()
    ensures FirstMatch(Rules, "cartões consignados") == AmbosCartoes
  {
    CartoesConsignadosKeywords();
    NoNovoKeywordInCartoesConsignados();
    AmbosBeatsCartao("cartões consignados");
  }

  /**
   * "cartões consignados" contains CARTÃO's keyword "consignado", yet it is
   * AMBOS CARTÕES, because that rule comes first and no NOVO keyword occurs.
   */
  lemma CartoesConsignadosIsAmbos()
    ensures Occurs("consignado", "cartões consignados") && "consignado" in CartaoRule.keywords
    ensures Classify(Some("cartões consignados")) == AmbosCartoes
  {
    CartoesConsignadosNormal();
    CartoesConsignadosKeywords();
    CartoesConsignadosFirstMatch();
  }
}
