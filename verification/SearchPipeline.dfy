/** From query text to SQL: the lexer, the parser, the binder and the compiler together. */
module SearchPipeline {
  import opened Values
  import opened QueryAst
  import G = Grammar
  import L = Lexer
  import Q = QueryGrammar
  import P = QueryParser
  import B = Bind
  import T = BindTheorems
  import Binder
  import C = Compile
  import S = SqlText
  import M = ConditionMeaning

  const MAX_QUERY_BYTES := 16 * 1024

  function ParseText(words: G.Words, input: string): Option<Query> {
    if |input| > MAX_QUERY_BYTES then None
    else match L.Lex(input) case None => None case Some(tokens) => Q.ParseTokens(words, tokens)
  }

  /** Parse. */
  method Parse(words: G.Words, input: string) returns (query: Option<Query>)
    ensures query == ParseText(words, input)
  {
    if |input| > MAX_QUERY_BYTES {
      return None;
    }
    var tokens := L.LexAll(input);
    if tokens.None? {
      return None;
    }
    var parser := new P.Parser(words, tokens.value);
    query := parser.ParseWhole();
  }

  /** The tokens before the end marker. */
  function Body(tokens: seq<G.Token>): seq<G.Token> {
    if tokens == [] then [] else tokens[..|tokens| - 1]
  }

  /** Text is accepted as a query exactly when it lexes to the text of a legal tree that means that query. */
  lemma TextIsAcceptedIff(words: G.Words, input: string, query: Query)
    requires |input| <= MAX_QUERY_BYTES
    ensures ParseText(words, input) == Some(query) <==>
      L.Lex(input).Some? && Q.Means(words, Body(L.Lex(input).value), query)
  {
    var lexed := L.Lex(input);
    if lexed.Some? {
      TextIsParsed(words, input, lexed.value);
      LexedIsAcceptedIff(words, input, lexed.value, query);
    }
  }

  lemma TextIsParsed(words: G.Words, input: string, tokens: seq<G.Token>)
    requires |input| <= MAX_QUERY_BYTES && L.Lex(input) == Some(tokens)
    ensures ParseText(words, input) == Q.ParseTokens(words, tokens)
  {
  }

  lemma LexedIsAcceptedIff(words: G.Words, input: string, tokens: seq<G.Token>, query: Query)
    requires L.Lex(input) == Some(tokens)
    ensures Q.ParseTokens(words, tokens) == Some(query) <==> Q.Means(words, Body(tokens), query)
  {
    L.LexIsLexical(input);
    TokensAreAcceptedIff(words, tokens, query);
  }

  lemma TokensAreAcceptedIff(words: G.Words, tokens: seq<G.Token>, query: Query)
    requires |tokens| > 0 && tokens[|tokens| - 1] == G.Eof && forall i :: 0 <= i < |tokens| - 1 ==> L.Lexical(tokens[i])
    ensures Q.ParseTokens(words, tokens) == Some(query) <==> Q.Means(words, Body(tokens), query)
  {
    EndOfTokens(tokens);
    Q.ParserIsGrammar(words, Body(tokens), query);
  }

  lemma EndOfTokens(tokens: seq<G.Token>)
    requires |tokens| > 0 && tokens[|tokens| - 1] == G.Eof && forall i :: 0 <= i < |tokens| - 1 ==> L.Lexical(tokens[i])
    ensures tokens == Body(tokens) + [G.Eof] && G.Eof !in Body(tokens)
  {
  }

  /** Every legal tree whose words the lexer knows has a text that parses to its meaning. */
  lemma TreesHaveText(words: G.Words, c: Q.QueryTree, body: seq<G.Token>)
    requires Q.Derives(words, c, body) && |L.Show(body)| <= MAX_QUERY_BYTES
    requires forall i :: 0 <= i < |body| ==> L.Lexical(body[i])
    ensures ParseText(words, L.Show(body)) == Some(Q.AstQuery(words, c))
  {
    L.LexShow(body);
    Q.CompleteQuery(words, c, [G.Eof], 0);
  }

  /**
   A query that binds and compiles runs one well-formed condition exactly when the literals of its attribute paths can be
   read. If all names in the paths are plain, that condition is (scope AND condition) on a row of a database exactly when
   there is no scope, no top-level OR, or the OR's other terms stay within the scope.
   */
  lemma BoundQueriesKeepTheirMeaning(registry: B.Registry, query: Query, names: C.Names, scope: string, w: S.World) returns (tree: S.Tree)
    requires Binder.BindQuery(registry, query).Some? && names.attrTypes == T.TypesOf(Binder.BindQuery(registry, query).value)
    requires C.WhereSql(names, scope, query.condition).Some? && (scope != "" || query.condition.Some?)
    ensures var text := C.WhereSql(names, scope, query.condition).value.text;
      && (S.ReadCondition(text).Some? <==> M.ReadableCondition(query.condition))
      && (M.ReadableCondition(query.condition) ==> S.ReadCondition(text) == Some(tree))
    ensures M.PlainCondition(query.condition) ==>
      var code := C.WhereSql(names, scope, query.condition).value;
      M.ReadableCondition(query.condition) &&
      ((S.Holds(w, code.args, tree) == M.Intended(w, names, scope, query.condition)) <==> M.StaysInScope(w, names, scope, query.condition))
  {
    if query.condition.Some? {
      Binder.BoundConditionsAreSafe(registry, query, names);
    }
    tree := M.MeaningIsPreservedIff(w, names, scope, query.condition);
  }
}
