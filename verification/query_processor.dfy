/**
 * The query processor of query_processor.py: keyword extraction over the
 * tagger's tokens, query expansion, and the record that assembles both.
 *
 * The tagger (spaCy) and the intent classifier (a logistic regression) are not
 * part of this model: their outputs, the token list and the intent label,
 * are parameters.
 */
module QueryProcessor {

  // ---------------------------------------------------------------------------
  // Helpers on strings and lists
  // ---------------------------------------------------------------------------

  /** No element occurs twice. */
  predicate NoDuplicates(s: seq<string>) {
    forall i, j :: 0 <= i < j < |s| ==> s[i] != s[j]
  }

  /** `str.lower()` on ASCII letters; every other character is kept. */
  function Lower(s: string): (r: string)
    ensures |r| == |s|
    ensures forall i :: 0 <= i < |r| ==> !('A' <= r[i] <= 'Z')
    ensures forall i :: 0 <= i < |s| && !('A' <= s[i] <= 'Z') ==> r[i] == s[i]
    ensures forall i :: 0 <= i < |s| && 'A' <= s[i] <= 'Z' ==> r[i] as int == s[i] as int + 32
  {
    seq(|s|, i requires 0 <= i < |s| => if 'A' <= s[i] <= 'Z' then (s[i] as int + 32) as char else s[i])
  }

  /**
   * `" ".join(ks)`: "" for no strings, the string itself for one, and the
   * strings in order with one space between neighbours for several.
   */
  function JoinSpace(ks: seq<string>): (r: string)
    ensures ks == [] ==> r == ""
    ensures |ks| == 1 ==> r == ks[0]
    ensures ks != [] ==> |ks[0]| <= |r| && r[..|ks[0]|] == ks[0]
    ensures ks != [] ==> |ks[|ks| - 1]| <= |r| && r[|r| - |ks[|ks| - 1]|..] == ks[|ks| - 1]
    ensures |ks| >= 2 ==> |ks[0]| < |r| && r[|ks[0]|] == ' '
  {
    if ks == [] then ""
    else if |ks| == 1 then ks[0]
    else ks[0] + " " + JoinSpace(ks[1..])
  }

  /** Joining two non-empty lists is joining each and putting one space between. */
  lemma {:induction false} JoinSpaceConcat(a: seq<string>, b: seq<string>)
    requires a != [] && b != []
    ensures JoinSpace(a + b) == JoinSpace(a) + " " + JoinSpace(b)
    decreases |a|
  {
    var h, t := a[0], a[1..];
    if t == [] {
      assert a + b == [h] + b;
      JoinSpaceCons(h, b);
    } else {
      assert a == [h] + t && a + b == [h] + (t + b);
      JoinSpaceCons(h, t + b);
      JoinSpaceCons(h, t);
      JoinSpaceConcat(t, b);
      SpaceAssoc(h, JoinSpace(t), JoinSpace(b));
    }
  }

  /** Joining a string in front of a non-empty list puts one space after it. */
  lemma JoinSpaceCons(h: string, t: seq<string>)
    requires t != []
    ensures JoinSpace([h] + t) == h + " " + JoinSpace(t)
  {
    assert ([h] + t)[1..] == t;
  }

  /** Regrouping two joins with a space. */
  lemma SpaceAssoc(x: string, y: string, z: string)
    ensures x + " " + (y + " " + z) == (x + " " + y) + " " + z
  {
  }

  // ---------------------------------------------------------------------------
  // Keyword extraction
  // ---------------------------------------------------------------------------

  /** A token of the tagger's output, reduced to the attributes that keyword extraction reads. */
  datatype Token = Token(text: string, pos: string, isStop: bool, isAlpha: bool)

  /** A noun, proper noun or verb that is not a stop word and is alphabetic. */
  predicate IsKeywordToken(t: Token) {
    t.pos in ["NOUN", "PROPN", "VERB"] && !t.isStop && t.isAlpha
  }

  /** The list comprehension: lower-cased texts of the keyword tokens, in token order. */
  function Candidates(tokens: seq<Token>): (r: seq<string>)
    ensures forall k :: k in r <==> exists t :: t in tokens && IsKeywordToken(t) && Lower(t.text) == k
  {
    if tokens == [] then []
    else
      var rest := Candidates(tokens[1..]);
      assert forall t :: t in tokens <==> t == tokens[0] || t in tokens[1..];
      if IsKeywordToken(tokens[0]) then [Lower(tokens[0].text)] + rest else rest
  }

  /**
   * `list(set(s))`: the distinct elements of `s`. Python fixes no order; this
   * one keeps the last occurrence of each element.
   */
  function Dedup(s: seq<string>): (r: seq<string>)
    ensures NoDuplicates(r)
    ensures forall x :: x in r <==> x in s
    ensures |r| <= |s|
  {
    if s == [] then []
    else if s[0] in s[1..] then Dedup(s[1..])
    else [s[0]] + Dedup(s[1..])
  }

  /**
   * `extract_keywords`: each keyword once, and the keywords are exactly the
   * lower-cased texts of the tokens that are nouns, proper nouns or verbs,
   * not stop words, and alphabetic.
   */
  function ExtractKeywords(tokens: seq<Token>): (r: seq<string>)
    ensures NoDuplicates(r)
    ensures forall k :: k in r <==> exists t :: t in tokens && IsKeywordToken(t) && Lower(t.text) == k
  {
    Dedup(Candidates(tokens))
  }

  // ---------------------------------------------------------------------------
  // Query expansion
  // ---------------------------------------------------------------------------

  /** The five strings `expand_query` adds to its set. */
  function ExpansionSet(query: string, keywords: seq<string>): set<string> {
    var joined := JoinSpace(keywords);
    {query, joined, query + " tutorial", "best " + joined, "how to " + joined}
  }

  /**
   * The set has four or five elements. The three strings built from the
   * keywords differ from each other, the query differs from the query with
   * " tutorial" appended, and by length at most one of those two can equal
   * one of the three. It has five exactly when neither does.
   */
  lemma ExpansionSize(query: string, keywords: seq<string>)
    ensures 4 <= |ExpansionSet(query, keywords)| <= 5
    ensures |ExpansionSet(query, keywords)| == 5 <==>
      var joined := JoinSpace(keywords);
      var fromKeywords := {joined, "best " + joined, "how to " + joined};
      query !in fromKeywords && query + " tutorial" !in fromKeywords
  {
    ExpansionSizeFor(query, JoinSpace(keywords));
  }

  /** `ExpansionSize` for any joined keyword string. */
  lemma ExpansionSizeFor(query: string, joined: string)
    ensures var e := {query, joined, query + " tutorial", "best " + joined, "how to " + joined};
      4 <= |e| <= 5 &&
      (|e| == 5 <==>
        var fromKeywords := {joined, "best " + joined, "how to " + joined};
        query !in fromKeywords && query + " tutorial" !in fromKeywords)
  {
    var best, howTo, tutorial := "best " + joined, "how to " + joined, query + " tutorial";
    assert best[0] == 'b' && howTo[0] == 'h';
    assert |joined| < |best| < |howTo|;
    var fromKeywords := {joined, best, howTo};
    assert |fromKeywords| == 3;
    assert |tutorial| == |query| + 9;
    assert query != tutorial;
    assert query !in fromKeywords || tutorial !in fromKeywords;
    assert {query, joined, tutorial, best, howTo} == fromKeywords + {query} + {tutorial};
  }

  /**
   * `list(s)` for a set: every element once, in an order the model leaves
   * open (Python's depends on string hashing).
   */
  method ListOfSet(s: set<string>) returns (r: seq<string>)
    ensures NoDuplicates(r)
    ensures forall x :: x in r <==> x in s
    ensures |r| == |s|
  {
    r := [];
    var rest := s;
    while rest != {}
      invariant rest <= s
      invariant forall x :: x in r <==> x in s && x !in rest
      invariant NoDuplicates(r)
      invariant |r| + |rest| == |s|
      decreases |rest|
    {
      var x :| x in rest;
      r := r + [x];
      rest := rest - {x};
    }
  }

  /**
   * `expand_query`: the query, the space-joined keywords, the query followed by
   * " tutorial", and "best " and "how to " before the joined keywords; each
   * distinct string once, in no particular order.
   */
  method ExpandQuery(query: string, keywords: seq<string>) returns (r: seq<string>)
    ensures NoDuplicates(r)
    ensures forall q :: q in r <==> q in ExpansionSet(query, keywords)
    ensures query in r
    ensures 4 <= |r| <= 5
  {
    var joined := JoinSpace(keywords);
    // The set that the five `add` calls build, written as one display.
    var expanded: set<string> := {query, joined, query + " tutorial", "best " + joined, "how to " + joined};
    ExpansionSize(query, keywords);
    assert 4 <= |expanded| <= 5;
    r := ListOfSet(expanded);
  }

  // ---------------------------------------------------------------------------
  // The assembled record
  // ---------------------------------------------------------------------------

  /** The three labels the intent classifier was trained on. */
  datatype Intent = Informational | Commercial | Navigational

  /** The dictionary `process_query` returns. */
  datatype QueryAnalysis = QueryAnalysis(
    originalQuery: string,
    intent: Intent,
    keywords: seq<string>,
    expandedQueries: seq<string>)

  /**
   * `process_query`: the record holds the query itself, the classifier's
   * label, the extracted keywords, and the expansion of the query by those
   * keywords, which always contains the query.
   */
  method ProcessQuery(userQuery: string, intent: Intent, tokens: seq<Token>) returns (r: QueryAnalysis)
    ensures r.originalQuery == userQuery && r.intent == intent
    ensures r.keywords == ExtractKeywords(tokens)
    ensures forall q :: q in r.expandedQueries <==> q in ExpansionSet(userQuery, r.keywords)
    ensures userQuery in r.expandedQueries
    ensures NoDuplicates(r.expandedQueries)
    ensures 4 <= |r.expandedQueries| <= 5
  {
    var keywords := ExtractKeywords(tokens);
    var expandedQueries := ExpandQuery(userQuery, keywords);
    r := QueryAnalysis(userQuery, intent, keywords, expandedQueries);
  }
}
