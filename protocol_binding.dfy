/**
 * The protocol-binding filter of a handler chain: the fixed table from a
 * binding identifier to its symbolic token, the space-only tokenizer, and the
 * matcher that decides whether a chain applies to the current binding.
 */
module ProtocolBinding {
  import opened Wrappers

  /** Binding identifiers defined by the JAX-WS API (SOAPBinding and HTTPBinding). */
  const Soap11HttpBinding: string := "http://schemas.xmlsoap.org/wsdl/soap/http"
  const Soap12HttpBinding: string := "http://www.w3.org/2003/05/soap/bindings/HTTP/"
  const Soap11HttpMtomBinding: string := "http://schemas.xmlsoap.org/wsdl/soap/http?mtom=true"
  const Soap12HttpMtomBinding: string := "http://www.w3.org/2003/05/soap/bindings/HTTP/?mtom=true"
  const HttpBinding: string := "http://www.w3.org/2004/08/wsdl/http"

  /** The five-entry table from binding identifier to protocol-binding token. */
  const BindingIds: map<string, string> := map[
    Soap11HttpBinding := "##SOAP11_HTTP",
    Soap12HttpBinding := "##SOAP12_HTTP",
    Soap11HttpMtomBinding := "##SOAP11_HTTP_MTOM",
    Soap12HttpMtomBinding := "##SOAP12_HTTP_MTOM",
    HttpBinding := "##XML_HTTP"]

  /** The token of a binding identifier; an identifier missing from the table has none (Java's null). */
  function ProtocolBindingToken(bindingId: string): (token: Option<string>)
    ensures token.Some? <==> bindingId in {Soap11HttpBinding, Soap12HttpBinding, Soap11HttpMtomBinding,
                                           Soap12HttpMtomBinding, HttpBinding}
  {
    if bindingId in BindingIds then Some(BindingIds[bindingId]) else None
  }

  /** Distinct binding identifiers of the table have distinct tokens. */
  lemma TokenTableInjective(a: string, b: string)
    requires ProtocolBindingToken(a).Some? && ProtocolBindingToken(a) == ProtocolBindingToken(b)
    ensures a == b
  {
  }

  predicate NoSpace(t: string)
  {
    forall k :: 0 <= k < |t| ==> t[k] != ' '
  }

  /** Length of the run of non-space characters at the front of s. */
  function TokenLength(s: string): (n: nat)
    ensures n <= |s|
    ensures forall k :: 0 <= k < n ==> s[k] != ' '
    ensures n < |s| ==> s[n] == ' '
  {
    if s == [] || s[0] == ' ' then 0 else 1 + TokenLength(s[1..])
  }

  /**
   * The tokens of s, in order, as a string tokenizer whose only delimiter is
   * the space character yields them: maximal runs of non-space characters.
   */
  function Tokens(s: string): (ts: seq<string>)
    ensures forall t :: t in ts ==> t != [] && NoSpace(t)
    decreases |s|
  {
    if s == [] then []
    else if s[0] == ' ' then Tokens(s[1..])
    else [s[..TokenLength(s)]] + Tokens(s[TokenLength(s)..])
  }

  /** The filter of a handler chain admits the current token. */
  predicate Matches(current: Option<string>, filter: Option<string>)
    ensures current.None? ==> (Matches(current, filter) <==> filter.None?)
    ensures Matches(current, filter) && filter.Some? ==> current.Some? && current.value != [] && NoSpace(current.value)
  {
    filter.None? || (current.Some? && current.value in Tokens(filter.value))
  }

  /** t stands in s at position i with a space or an end of s on either side. */
  predicate TokenAt(s: string, t: string, i: int)
  {
    0 <= i && i + |t| <= |s| && s[i..i + |t|] == t &&
    (i == 0 || s[i - 1] == ' ') && (i + |t| == |s| || s[i + |t|] == ' ')
  }

  /** t is a space-delimited word of s. */
  ghost predicate OccursAsToken(t: string, s: string)
  {
    t != [] && NoSpace(t) && exists i :: TokenAt(s, t, i)
  }

  /** A space in front of the rest of the filter adds no token. */
  lemma TokensSkipSpace(s: string, i: nat)
    requires i < |s| && s[i] == ' '
    ensures Tokens(s[i..]) == Tokens(s[i + 1..])
  {
  }

  /** A non-space character extends the run that starts at it. */
  lemma TokenLengthStep(s: string, j: nat)
    requires j < |s| && s[j] != ' '
    ensures TokenLength(s[j..]) == 1 + TokenLength(s[j + 1..])
  {
  }

  /** A maximal run of non-space characters from i to j is the next token. */
  lemma TokensWord(s: string, i: nat, j: nat)
    requires i < j <= |s| && s[i] != ' ' && TokenLength(s[i..]) == j - i
    ensures Tokens(s[i..]) == [s[i..j]] + Tokens(s[j..])
  {
    assert s[i..][..j - i] == s[i..j];
    assert s[i..][j - i..] == s[j..];
  }

  /** Splits s on spaces, one token at a time, as java.util.StringTokenizer(s, " ", false) does. */
  method Tokenize(s: string) returns (tokens: seq<string>)
    ensures tokens == Tokens(s)
  {
    tokens := [];
    var i := 0;
    while i < |s|
      invariant 0 <= i <= |s|
      invariant tokens + Tokens(s[i..]) == Tokens(s)
    {
      if s[i] == ' ' {
        TokensSkipSpace(s, i);
        i := i + 1;
      } else {
        var j := i;
        while j < |s| && s[j] != ' '
          invariant i <= j <= |s|
          invariant TokenLength(s[i..]) == (j - i) + TokenLength(s[j..])
        {
          TokenLengthStep(s, j);
          j := j + 1;
        }
        TokensWord(s, i, j);
        assert (tokens + [s[i..j]]) + Tokens(s[j..]) == tokens + ([s[i..j]] + Tokens(s[j..]));
        tokens := tokens + [s[i..j]];
        i := j;
      }
    }
  }

  /** matchProtocolBinding: a chain without filter always applies, otherwise the current token must be one of its words. */
  method MatchProtocolBinding(current: Option<string>, filter: Option<string>) returns (b: bool)
    ensures b == Matches(current, filter)
    ensures b <==> filter.None? || (current.Some? && OccursAsToken(current.value, filter.value))
  {
    MatchesIff(current, filter);
    if filter.None? {
      return true;
    }
    var protocolBindings := Tokenize(filter.value);
    b := current.Some? && current.value in protocolBindings;
  }

  /** A word delimited inside a suffix of s is delimited in s too, unless it would start right after a non-space. */
  lemma TokenAtShift(s: string, t: string, k: nat, i: int)
    requires k <= |s| && TokenAt(s[k..], t, i)
    requires i > 0 || k == 0 || s[k - 1] == ' '
    ensures TokenAt(s, t, k + i)
  {
  }

  /** Every token the tokenizer yields is a space-delimited word of the filter. */
  lemma {:induction false} TokensOccur(s: string, t: string)
    requires t in Tokens(s)
    ensures OccursAsToken(t, s)
    decreases |s|
  {
    if s[0] == ' ' {
      TokensOccur(s[1..], t);
      var i :| TokenAt(s[1..], t, i);
      TokenAtShift(s, t, 1, i);
    } else {
      var n := TokenLength(s);
      if t == s[..n] {
        assert s[0..n] == s[..n];
        assert TokenAt(s, t, 0);
      } else {
        TokensOccur(s[n..], t);
        var i :| TokenAt(s[n..], t, i);
        assert i > 0;
        TokenAtShift(s, t, n, i);
      }
    }
  }

  /** Every space-delimited word of the filter is one of the tokens the tokenizer yields. */
  lemma {:induction false} DelimitedIsToken(s: string, t: string, i: int)
    requires t != [] && NoSpace(t) && TokenAt(s, t, i)
    ensures t in Tokens(s)
    decreases |s|
  {
    assert s[i..i + |t|][0] == t[0];
    if s[0] == ' ' {
      assert i > 0;
      assert s[1..][i - 1..i - 1 + |t|] == s[i..i + |t|];
      assert TokenAt(s[1..], t, i - 1);
      DelimitedIsToken(s[1..], t, i - 1);
    } else {
      var n := TokenLength(s);
      if i == 0 {
        assert n == |t|;
        assert t == s[..n];
      } else {
        assert i > n;
        assert s[n..][i - n..i - n + |t|] == s[i..i + |t|];
        assert TokenAt(s[n..], t, i - n);
        DelimitedIsToken(s[n..], t, i - n);
      }
    }
  }

  /** The matcher admits exactly an absent filter, or a filter naming the current token as one of its space-delimited words. */
  lemma MatchesIff(current: Option<string>, filter: Option<string>)
    ensures Matches(current, filter) <==>
            filter.None? || (current.Some? && OccursAsToken(current.value, filter.value))
  {
    if filter.Some? && current.Some? {
      var s, t := filter.value, current.value;
      if t in Tokens(s) {
        TokensOccur(s, t);
      }
      if OccursAsToken(t, s) {
        var i :| TokenAt(s, t, i);
        DelimitedIsToken(s, t, i);
      }
    }
  }

  /** A filter made only of spaces (including the empty filter) has no tokens. */
  lemma {:induction false} BlankHasNoTokens(s: string)
    requires forall k :: 0 <= k < |s| ==> s[k] == ' '
    ensures Tokens(s) == []
    decreases |s|
  {
    if s != [] {
      BlankHasNoTokens(s[1..]);
    }
  }

  /** An empty or all-space filter matches no binding, not even one without a token. */
  lemma BlankFilterMatchesNothing(current: Option<string>, f: string)
    requires forall k :: 0 <= k < |f| ==> f[k] == ' '
    ensures !Matches(current, Some(f))
  {
    BlankHasNoTokens(f);
  }

  /** A binding identifier missing from the table admits exactly the chains without a filter. */
  lemma UnknownBindingMatchesOnlyUnfiltered(bindingId: string, filter: Option<string>)
    requires ProtocolBindingToken(bindingId).None?
    ensures Matches(ProtocolBindingToken(bindingId), filter) <==> filter.None?
  {
  }

  /** A filter that is exactly one word matches exactly that token. */
  lemma SingleWordFilter(current: string, word: string)
    requires word != [] && NoSpace(word)
    ensures Matches(Some(current), Some(word)) <==> current == word
  {
    MatchesIff(Some(current), Some(word));
    if current == word {
      assert word[0..|word|] == word;
      assert TokenAt(word, current, 0);
    }
    if OccursAsToken(current, word) {
      var i :| TokenAt(word, current, i);
      assert current != [];
      assert word[0..|word|] == word;
    }
  }

  /** A chain filtered on "##SOAP12_HTTP" does not apply to a SOAP 1.1 binding. */
  lemma Soap12FilterExcludesSoap11()
    ensures !Matches(ProtocolBindingToken(Soap11HttpBinding), Some("##SOAP12_HTTP"))
  {
    assert ProtocolBindingToken(Soap11HttpBinding) == Some("##SOAP11_HTTP");
    SingleWordFilter("##SOAP11_HTTP", "##SOAP12_HTTP");
  }
}
