/** Query sanitisation and composition of the suggest URL
    (`getWells` in src/components/SearchBar/index.js). */
module Query {
  import opened Wrappers

  /** `QP_URL_ROOT`. */
  const UrlRoot: string := "https://api.querypark.com/v1/"

  /** Everything in a suggest request URL before the query value. */
  const SuggestPrefix: string := UrlRoot + "suggest" + "?query="

  /** The characters the pattern `[A-Za-z0-9]` matches. */
  predicate IsAlnum(c: char) {
    'A' <= c <= 'Z' || 'a' <= c <= 'z' || '0' <= c <= '9'
  }

  /** `s.replace(/[^A-Za-z0-9]/g, '')`: every character outside
      `[A-Za-z0-9]` removed. */
  function Sanitize(s: string): (r: string)
    ensures forall i :: 0 <= i < |r| ==> IsAlnum(r[i])
    ensures |r| <= |s|
  {
    if s == [] then []
    else (if IsAlnum(s[0]) then [s[0]] else []) + Sanitize(s[1..])
  }

  /** `t` can be obtained from `s` by deleting characters (greedy matching). */
  ghost predicate IsSubsequence(t: string, s: string)
    decreases |s|
  {
    if t == [] then true
    else if s == [] then false
    else if t[0] == s[0] then IsSubsequence(t[1..], s[1..])
    else IsSubsequence(t, s[1..])
  }

  /** Sanitising distributes over concatenation. */
  lemma {:induction false} SanitizeConcat(a: string, b: string)
    ensures Sanitize(a + b) == Sanitize(a) + Sanitize(b)
  {
    if a == [] {
      assert a + b == b;
    } else {
      assert (a + b)[0] == a[0];
      assert (a + b)[1..] == a[1..] + b;
      SanitizeConcat(a[1..], b);
    }
  }

  /** A string made only of letters and digits is left as it is. */
  lemma {:induction false} SanitizeFixesAlnum(t: string)
    requires forall i :: 0 <= i < |t| ==> IsAlnum(t[i])
    ensures Sanitize(t) == t
  {
    if t != [] {
      assert forall i :: 0 <= i < |t[1..]| ==> IsAlnum(t[1..][i]) by {
        forall i | 0 <= i < |t[1..]| ensures IsAlnum(t[1..][i]) {
          assert t[1..][i] == t[i + 1];
        }
      }
      SanitizeFixesAlnum(t[1..]);
      assert [t[0]] + t[1..] == t;
    }
  }

  /** Sanitising twice is sanitising once. */
  lemma SanitizeIdempotent(s: string)
    ensures Sanitize(Sanitize(s)) == Sanitize(s)
  {
    SanitizeFixesAlnum(Sanitize(s));
  }

  /** Every letter and digit of the input is kept as often as it occurs,
      and nothing else survives. */
  lemma {:induction false} SanitizeCounts(s: string)
    ensures forall c :: multiset(Sanitize(s))[c] == if IsAlnum(c) then multiset(s)[c] else 0
  {
    if s != [] {
      SanitizeCounts(s[1..]);
      assert s == [s[0]] + s[1..];
      assert multiset(s) == multiset([s[0]]) + multiset(s[1..]);
    }
  }

  /** The kept characters appear in their original order. */
  lemma {:induction false} SanitizeIsSubsequence(s: string)
    ensures IsSubsequence(Sanitize(s), s)
  {
    if s != [] {
      SanitizeIsSubsequence(s[1..]);
      var r := Sanitize(s);
      if IsAlnum(s[0]) {
        assert r == [s[0]] + Sanitize(s[1..]);
        assert r[1..] == Sanitize(s[1..]);
      } else {
        assert r == Sanitize(s[1..]);
        SubsequenceSkip(r, s);
      }
    }
  }

  /** Dropping the head of `s` that does not start `t` keeps `t` a subsequence. */
  lemma SubsequenceSkip(t: string, s: string)
    requires s != [] && IsSubsequence(t, s[1..])
    requires t == [] || t[0] != s[0]
    ensures IsSubsequence(t, s)
  {
  }

  /** A subsequence never holds a character more often than the original. */
  lemma {:induction false} SubsequenceCounts(t: string, s: string)
    requires IsSubsequence(t, s)
    ensures multiset(t) <= multiset(s)
    decreases |s|
  {
    if t != [] {
      assert s == [s[0]] + s[1..];
      if t[0] == s[0] {
        SubsequenceCounts(t[1..], s[1..]);
        assert t == [t[0]] + t[1..];
      } else {
        SubsequenceCounts(t, s[1..]);
      }
    }
  }

  /** `Sanitize(s)` is the only subsequence of `s` that is made of letters
      and digits and keeps every letter and digit of `s`: the three
      properties above characterise it completely. */
  lemma {:induction false} SanitizeUnique(t: string, s: string)
    requires IsSubsequence(t, s)
    requires forall i :: 0 <= i < |t| ==> IsAlnum(t[i])
    requires forall c :: IsAlnum(c) ==> multiset(t)[c] == multiset(s)[c]
    ensures t == Sanitize(s)
    decreases |s|
  {
    if s == [] {
      assert t == [];
    } else {
      var c := s[0];
      assert s == [c] + s[1..];
      assert multiset(s) == multiset([c]) + multiset(s[1..]);
      if t != [] && t[0] == c {
        assert t == [c] + t[1..];
        assert multiset(t) == multiset([c]) + multiset(t[1..]);
        assert forall i :: 0 <= i < |t[1..]| ==> IsAlnum(t[1..][i]) by {
          forall i | 0 <= i < |t[1..]| ensures IsAlnum(t[1..][i]) {
            assert t[1..][i] == t[i + 1];
          }
        }
        SanitizeUnique(t[1..], s[1..]);
      } else {
        assert IsSubsequence(t, s[1..]);
        if IsAlnum(c) {
          SubsequenceCounts(t, s[1..]);
          assert false;
        } else {
          SanitizeUnique(t, s[1..]);
        }
      }
    }
  }

  /** The URL requested for a (non-empty) input value:
      `QP_URL_ROOT + 'suggest' + '?query=' + sanitised input`. Its query
      value consists of letters and digits only, so it needs no escaping. */
  function SuggestUrl(input: string): (url: string)
    ensures |SuggestPrefix| <= |url| <= |SuggestPrefix| + |input|
    ensures url[..|SuggestPrefix|] == SuggestPrefix
    ensures forall i :: |SuggestPrefix| <= i < |url| ==> IsAlnum(url[i])
  {
    var query := "?query=" + Sanitize(input);
    UrlRoot + "suggest" + query
  }

  /** Reads the query value back out of a suggest URL. */
  function QueryValue(url: string): (q: Option<string>)
    ensures q.Some? <==> |SuggestPrefix| <= |url| && url[..|SuggestPrefix|] == SuggestPrefix
    ensures q.Some? ==> SuggestPrefix + q.value == url
  {
    if |SuggestPrefix| <= |url| && url[..|SuggestPrefix|] == SuggestPrefix
    then Some(url[|SuggestPrefix|..])
    else None
  }

  /** The query value of the requested URL is exactly the sanitised input. */
  lemma SuggestUrlQuery(input: string)
    ensures QueryValue(SuggestUrl(input)) == Some(Sanitize(input))
  {
    assert SuggestUrl(input) == SuggestPrefix + Sanitize(input);
  }

  /** Two inputs lead to the same URL exactly when they sanitise alike. */
  lemma SuggestUrlInjective(a: string, b: string)
    ensures SuggestUrl(a) == SuggestUrl(b) <==> Sanitize(a) == Sanitize(b)
  {
    SuggestUrlQuery(a);
    SuggestUrlQuery(b);
  }

  /** The URL `getWells` requests for the current `inputValue`, or `None`
      when it issues no request: `inputValue` is `''` or `null`. The guard
      looks at the raw input, not at the sanitised one. */
  function RequestUrl(inputValue: Option<string>): (url: Option<string>)
    ensures url.None? <==> inputValue == None || inputValue == Some("")
    ensures url.Some? ==> QueryValue(url.value) == Some(Sanitize(inputValue.value))
  {
    SuggestUrlQuery(if inputValue.Some? then inputValue.value else "");
    if inputValue != Some("") && inputValue != None
    then Some(SuggestUrl(inputValue.value))
    else None
  }

  /** An input that is not empty but holds no letter or digit still issues a
      request, with an empty query value. */
  lemma {:induction false} SymbolsOnlyStillRequests(input: string)
    requires input != ""
    requires forall i :: 0 <= i < |input| ==> !IsAlnum(input[i])
    ensures RequestUrl(Some(input)) == Some(SuggestPrefix)
  {
    SanitizeCounts(input);
    var r := Sanitize(input);
    if r != [] {
      assert false;
    }
    assert SuggestUrl(input) == SuggestPrefix + r == SuggestPrefix;
    assert Some(input) != Some("");
    assert RequestUrl(Some(input)) == Some(SuggestUrl(input));
  }

  /** A worked example: sanitising `"Wel l-42!"` gives `"Well42"` (both
      `l`s are letters and are kept). */
  lemma ExampleSanitize()
    ensures Sanitize("Wel l-42!") == "Well42"
  {
  }

  /** The worked example as a request: `"Wel l-42!"` is requested as
      `...suggest?query=Well42`. */
  lemma ExampleRequest()
    ensures RequestUrl(Some("Wel l-42!")) == Some(SuggestPrefix + "Well42")
  {
    ExampleSanitize();
    assert SuggestUrl("Wel l-42!") == SuggestPrefix + "Well42";
  }
}
