/**
 Parsing the ticker manifest: the whole content is stripped of surrounding
 whitespace, every double quote is deleted, the rest is split on commas, and of
 each token that contains a colon the text between its first and its second
 colon (or the end) is kept, in order. An entry such as `"NSE:INFY"` yields
 `INFY`; a token without a colon is skipped.
 */
module TickerManifest {

  /** The characters Python's `str.isspace` accepts, which `str.strip()` removes. */
  predicate IsSpace(c: char)
  {
    || ('\t' <= c <= '\r')                 // tab, line feed, vertical tab, form feed, carriage return
    || ('\U{1C}' <= c <= '\U{1F}')         // file, group, record and unit separators
    || c == ' ' || c == '\U{85}' || c == '\U{A0}' || c == '\U{1680}'
    || ('\U{2000}' <= c <= '\U{200A}')
    || c == '\U{2028}' || c == '\U{2029}' || c == '\U{202F}' || c == '\U{205F}'
    || c == '\U{3000}'
  }

  // ---------------------------------------------------------------------------
  // content.strip()

  /** The number of whitespace characters at the start of `s`. */
  function LeadingSpaces(s: string): (n: nat)
    ensures n <= |s|
    ensures forall k | 0 <= k < n :: IsSpace(s[k])
    ensures n < |s| ==> !IsSpace(s[n])
  {
    if s == [] || !IsSpace(s[0]) then 0 else 1 + LeadingSpaces(s[1..])
  }

  /** The length of `s` without the whitespace at its end. */
  function TrimmedLength(s: string): (n: nat)
    ensures n <= |s|
    ensures forall k | n <= k < |s| :: IsSpace(s[k])
    ensures n > 0 ==> !IsSpace(s[n - 1])
  {
    if s == [] || !IsSpace(s[|s| - 1]) then |s| else TrimmedLength(s[..|s| - 1])
  }

  /** `s.strip()`: the slice of `s` left once the whitespace at both ends is removed. */
  function Strip(s: string): (r: string)
    ensures r == [] || (!IsSpace(r[0]) && !IsSpace(r[|r| - 1]))
    ensures exists i | 0 <= i <= |s| - |r| ::
      && r == s[i..][..|r|]
      && (forall k | 0 <= k < i :: IsSpace(s[k]))
      && (forall k | i + |r| <= k < |s| :: IsSpace(s[k]))
  {
    var i := LeadingSpaces(s);
    var t := s[i..];
    var r := t[..TrimmedLength(t)];
    assert r == s[i..][..|r|];
    r
  }

  // ---------------------------------------------------------------------------
  // .replace('"', '')

  /** `s.replace('"', '')`. */
  function RemoveQuotes(s: string): (r: string)
    ensures '"' !in r
  {
    if s == [] then []
    else
      (if s[0] == '"' then [] else [s[0]]) + RemoveQuotes(s[1..])
  }

  /** Quote removal works piecewise, so it keeps the order of what it keeps. */
  lemma {:induction false} RemoveQuotesAppend(a: string, b: string)
    ensures RemoveQuotes(a + b) == RemoveQuotes(a) + RemoveQuotes(b)
  {
    if a == [] {
      assert a + b == b;
    } else {
      var head := if a[0] == '"' then [] else [a[0]];
      calc {
        RemoveQuotes(a + b);
        { assert (a + b)[0] == a[0]; }
        head + RemoveQuotes((a + b)[1..]);
        { assert (a + b)[1..] == a[1..] + b; }
        head + RemoveQuotes(a[1..] + b);
        { RemoveQuotesAppend(a[1..], b); }
        head + (RemoveQuotes(a[1..]) + RemoveQuotes(b));
        RemoveQuotes(a) + RemoveQuotes(b);
      }
    }
  }

  /** Every character other than a quote is kept as often as it occurs. */
  lemma {:induction false} RemoveQuotesCounts(s: string)
    ensures forall c | c != '"' :: multiset(RemoveQuotes(s))[c] == multiset(s)[c]
  {
    if s != [] {
      RemoveQuotesCounts(s[1..]);
      assert s == [s[0]] + s[1..];
    }
  }

  /** Text without quotes is left as it is. */
  lemma {:induction false} RemoveQuotesUnquoted(s: string)
    requires '"' !in s
    ensures RemoveQuotes(s) == s
  {
    if s != [] {
      RemoveQuotesUnquoted(s[1..]);
      assert s == [s[0]] + s[1..];
    }
  }

  // ---------------------------------------------------------------------------
  // .split(sep)

  /** `s.split(sep)` for a one-character separator: the maximal runs between
      separators, so one more token than there are separators, empty ones
      included (`"".split(',') == [""]`). */
  function Split(s: string, sep: char): (r: seq<string>)
    ensures |r| >= 1
    ensures sep in s <==> |r| >= 2
    ensures forall k | 0 <= k < |r| :: sep !in r[k]
    ensures |r[0]| <= |s| && r[0] == s[..|r[0]|]
    ensures |r[0]| < |s| ==> s[|r[0]|] == sep
  {
    if s == [] then [[]]
    else
      var rest := Split(s[1..], sep);
      if s[0] == sep then [[]] + rest else [[s[0]] + rest[0]] + rest[1..]
  }

  /** Every character of a token is a character of the text. */
  lemma {:induction false} SplitTokensFromText(s: string, sep: char)
    ensures forall k, c | 0 <= k < |Split(s, sep)| && c in Split(s, sep)[k] :: c in s
  {
    if s != [] {
      SplitTokensFromText(s[1..], sep);
      assert s == [s[0]] + s[1..];
    }
  }

  /** `sep.join(ts)`. */
  function Join(ts: seq<string>, sep: char): string
  {
    if ts == [] then []
    else if |ts| == 1 then ts[0]
    else ts[0] + [sep] + Join(ts[1..], sep)
  }

  /** Joining the tokens back with the separator gives the original text. */
  lemma {:induction false} JoinSplit(s: string, sep: char)
    ensures Join(Split(s, sep), sep) == s
  {
    if s != [] {
      JoinSplit(s[1..], sep);
      var rest := Split(s[1..], sep);
      if s[0] == sep {
        assert Join(Split(s, sep), sep) == [] + [sep] + Join(rest, sep);
      } else if |rest| == 1 {
        assert Join(Split(s, sep), sep) == [s[0]] + rest[0];
      } else {
        assert Join(Split(s, sep), sep) == [s[0]] + rest[0] + [sep] + Join(rest[1..], sep);
      }
    }
  }

  /** A prefix without separators extends the first token. */
  lemma {:induction false} SplitAfterPlainPrefix(a: string, b: string, sep: char)
    requires sep !in a
    ensures Split(a + b, sep) == [a + Split(b, sep)[0]] + Split(b, sep)[1..]
  {
    if a == [] {
      var sb := Split(b, sep);
      assert a + b == b && a + sb[0] == sb[0];
      assert sb == [sb[0]] + sb[1..];
    } else {
      var sb := Split(b, sep);
      calc {
        Split(a + b, sep);
        { assert (a + b)[0] == a[0] != sep; }
        [[a[0]] + Split((a + b)[1..], sep)[0]] + Split((a + b)[1..], sep)[1..];
        { assert (a + b)[1..] == a[1..] + b; }
        [[a[0]] + Split(a[1..] + b, sep)[0]] + Split(a[1..] + b, sep)[1..];
        { SplitAfterPlainPrefix(a[1..], b, sep); }
        [[a[0]] + (a[1..] + sb[0])] + sb[1..];
        { assert [a[0]] + (a[1..] + sb[0]) == a + sb[0]; }
        [a + sb[0]] + sb[1..];
      }
    }
  }

  /** Splitting the join of separator-free tokens gives the tokens back. */
  lemma {:induction false} SplitJoin(ts: seq<string>, sep: char)
    requires |ts| >= 1
    requires forall k | 0 <= k < |ts| :: sep !in ts[k]
    ensures Split(Join(ts, sep), sep) == ts
  {
    if |ts| == 1 {
      SplitAfterPlainPrefix(ts[0], [], sep);
      assert ts[0] + [] == ts[0];
    } else {
      var rest := Join(ts[1..], sep);
      calc {
        Split(Join(ts, sep), sep);
        { assert Join(ts, sep) == ts[0] + ([sep] + rest); }
        Split(ts[0] + ([sep] + rest), sep);
        { SplitAfterPlainPrefix(ts[0], [sep] + rest, sep); }
        [ts[0] + Split([sep] + rest, sep)[0]] + Split([sep] + rest, sep)[1..];
        { assert ([sep] + rest)[0] == sep && ([sep] + rest)[1..] == rest; }
        [ts[0] + []] + Split(rest, sep);
        { SplitJoin(ts[1..], sep); assert ts[0] + [] == ts[0]; }
        [ts[0]] + ts[1..];
        ts;
      }
    }
  }

  // ---------------------------------------------------------------------------
  // [t.split(':')[1] for t in tickers if ':' in t]

  /** The first token ends at the first separator, and the second token is
      the first token of what follows it. */
  lemma SplitSecond(t: string, sep: char)
    requires sep in t
    ensures var i := |Split(t, sep)[0]|;
      && i < |t| && t[i] == sep && sep !in t[..i]
      && Split(t, sep)[1] == Split(t[i + 1..], sep)[0]
  {
    var i := |Split(t, sep)[0]|;
    var a, b := t[..i], t[i + 1..];
    assert t == a + ([sep] + b);
    SplitAfterPlainPrefix(a, [sep] + b, sep);
    assert ([sep] + b)[1..] == b;
  }

  /** `t.split(':')[1]`: the text after the first colon of `t`, up to the next
      colon or the end. */
  function Field(t: string): (f: string)
    requires ':' in t
    ensures ':' !in f
    ensures forall c | c in f :: c in t
    ensures exists i | 0 <= i < |t| ::
      && t[i] == ':' && ':' !in t[..i]
      && i + 1 + |f| <= |t| && t[i + 1..][..|f|] == f
      && (i + 1 + |f| == |t| || t[i + 1 + |f|] == ':')
  {
    SplitSecond(t, ':');
    var i := |Split(t, ':')[0]|;
    var f := Split(t, ':')[1];
    assert t[i + 1..][..|f|] == f;
    f
  }

  /** The list comprehension over the comma-separated tokens. */
  function ColonFields(tokens: seq<string>): (r: seq<string>)
    ensures |r| <= |tokens|
    ensures forall k | 0 <= k < |r| :: ':' !in r[k]
  {
    if tokens == [] then []
    else
      (if ':' in tokens[0] then [Field(tokens[0])] else []) + ColonFields(tokens[1..])
  }

  /** The comprehension yields the field of every token that holds a colon,
      and nothing else. */
  lemma {:induction false} ColonFieldsMembers(tokens: seq<string>)
    ensures forall x | x in ColonFields(tokens) :: exists t | t in tokens && ':' in t :: x == Field(t)
    ensures forall t | t in tokens && ':' in t :: Field(t) in ColonFields(tokens)
  {
    if tokens != [] {
      ColonFieldsMembers(tokens[1..]);
      assert tokens == [tokens[0]] + tokens[1..];
    }
  }

  /** The comprehension keeps the order of the tokens. */
  lemma {:induction false} ColonFieldsAppend(a: seq<string>, b: seq<string>)
    ensures ColonFields(a + b) == ColonFields(a) + ColonFields(b)
  {
    if a == [] {
      assert a + b == b;
      assert ColonFields(a) == [];
    } else {
      var head := if ':' in a[0] then [Field(a[0])] else [];
      calc {
        ColonFields(a + b);
        { assert (a + b)[0] == a[0]; }
        head + ColonFields((a + b)[1..]);
        { assert (a + b)[1..] == a[1..] + b; }
        head + ColonFields(a[1..] + b);
        { ColonFieldsAppend(a[1..], b); }
        head + (ColonFields(a[1..]) + ColonFields(b));
        (head + ColonFields(a[1..])) + ColonFields(b);
        ColonFields(a) + ColonFields(b);
      }
    }
  }

  /** The tokens of the manifest content. */
  function Tokens(content: string): (r: seq<string>)
    ensures |r| >= 1
    ensures forall k | 0 <= k < |r| :: ',' !in r[k] && '"' !in r[k]
    ensures Join(r, ',') == RemoveQuotes(Strip(content))
  {
    var text := RemoveQuotes(Strip(content));
    SplitTokensFromText(text, ',');
    JoinSplit(text, ',');
    Split(text, ',')
  }

  /** `cleaned_tickers`: one symbol per token that contains a colon, none of
      them holding a quote, a comma or a colon. */
  function ParseTickers(content: string): (r: seq<string>)
    ensures |r| <= |Tokens(content)|
    ensures forall k | 0 <= k < |r| :: '"' !in r[k] && ',' !in r[k] && ':' !in r[k]
  {
    var tokens := Tokens(content);
    var r := ColonFields(tokens);
    ColonFieldsMembers(tokens);
    assert forall k | 0 <= k < |r| :: '"' !in r[k] && ',' !in r[k] && ':' !in r[k] by {
      forall k | 0 <= k < |r| ensures '"' !in r[k] && ',' !in r[k] && ':' !in r[k] {
        assert r[k] in r;
        var t :| t in tokens && ':' in t && r[k] == Field(t);
        SplitTokensFromText(RemoveQuotes(Strip(content)), ',');
      }
    }
    r
  }
}
