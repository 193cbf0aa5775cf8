/** What "outside quotes" means: a comment starts at the first number sign behind closed quotations only. */
module ConfigQuotes {
  import opened Wrappers
  import opened Text
  import opened ConfigParser

  /** The inside of a double quotation: plain characters, and backslashes each with the character after it. */
  predicate Body(b: string)
    decreases |b|
  {
    || b == []
    || (b[0] != '"' && b[0] != '\\' && Body(b[1..]))
    || (b[0] == '\\' && |b| >= 2 && Body(b[2..]))
  }

  predicate DoubleQuotation(q: string) {
    |q| >= 2 && q[0] == '"' && q[|q| - 1] == '"' && Body(q[1..|q| - 1])
  }

  predicate SingleQuotation(q: string) {
    |q| >= 2 && q[0] == '\'' && q[|q| - 1] == '\'' && '\'' !in q[1..|q| - 1]
  }

  /** Characters that are no quotes, and whole quotations, one after the other. */
  ghost predicate Closed(s: string)
    decreases |s|
  {
    || s == []
    || (s[|s| - 1] != '"' && s[|s| - 1] != '\'' && Closed(s[..|s| - 1]))
    || exists k :: 0 <= k < |s| && EndsWithQuotation(s, k) && Closed(s[..k])
  }

  predicate EndsWithQuotation(s: string, k: nat)
    requires k < |s|
  {
    SingleQuotation(s[k..]) || DoubleQuotation(s[k..])
  }

  lemma {:induction false} BodiesJoin(a: string, b: string)
    requires Body(a) && Body(b)
    ensures Body(a + b)
    decreases |a|
  {
    if a == [] {
      assert a + b == b;
    } else if a[0] == '\\' {
      BodiesJoin(a[2..], b);
      assert (a + b)[2..] == a[2..] + b;
    } else {
      BodiesJoin(a[1..], b);
      assert (a + b)[1..] == a[1..] + b;
    }
  }

  // ---------------------------------------------------------------- quotations are passed over

  lemma {:induction false} SinglePassed(s: string, i: nat, j: nat)
    requires i <= j <= |s| && QuoteAt(s, i) == Single && '\'' !in s[i..j]
    ensures QuoteAt(s, j) == Single
    decreases j
  {
    if i < j {
      assert s[i..j] == s[i..j - 1] + [s[j - 1]];
      SinglePassed(s, i, j - 1);
    }
  }

  lemma {:induction false} BodyPassed(s: string, i: nat, j: nat)
    requires i <= j <= |s| && QuoteAt(s, i) == Double && Body(s[i..j])
    ensures QuoteAt(s, j) == Double
    decreases j - i
  {
    if i < j {
      if s[i] == '\\' {
        assert s[i..j][2..] == s[i + 2..j];
        assert QuoteAt(s, i + 1) == Escaped && QuoteAt(s, i + 2) == Double;
        BodyPassed(s, i + 2, j);
      } else {
        assert s[i..j][1..] == s[i + 1..j];
        BodyPassed(s, i + 1, j);
      }
    }
  }

  lemma {:induction false} QuotationPassed(s: string, k: nat)
    requires k < |s| && QuoteAt(s, k) == Bare && EndsWithQuotation(s, k)
    ensures QuoteAt(s, |s|) == Bare
  {
    var n := |s| - 1;
    assert s[k..][0] == s[k] && s[k..][|s[k..]| - 1] == s[n] && s[k..][1..|s[k..]| - 1] == s[k + 1..n];
    if s[k] == '\'' {
      SinglePassed(s, k + 1, n);
    } else {
      BodyPassed(s, k + 1, n);
    }
  }

  // ---------------------------------------------------------------- where a quotation was opened

  lemma {:induction false} SingleOpened(s: string, m: nat) returns (k: nat)
    requires m <= |s| && QuoteAt(s, m) == Single
    ensures k < m && QuoteAt(s, k) == Bare && s[k] == '\'' && '\'' !in s[k + 1..m]
  {
    if QuoteAt(s, m - 1) == Bare {
      k := m - 1;
    } else {
      k := SingleOpened(s, m - 1);
      assert s[k + 1..m] == s[k + 1..m - 1] + [s[m - 1]];
    }
  }

  lemma {:induction false} DoubleOpened(s: string, m: nat) returns (k: nat)
    requires m <= |s| && QuoteAt(s, m) in {Double, Escaped}
    ensures k < m && QuoteAt(s, k) == Bare && s[k] == '"'
    ensures QuoteAt(s, m) == Double ==> Body(s[k + 1..m])
    ensures QuoteAt(s, m) == Escaped ==> k + 1 < m && s[m - 1] == '\\' && Body(s[k + 1..m - 1])
  {
    if QuoteAt(s, m - 1) == Bare {
      k := m - 1;
    } else {
      k := DoubleOpened(s, m - 1);
      if QuoteAt(s, m - 1) == Escaped {
        var pair := s[m - 2..m];
        assert pair[2..] == [];
        BodiesJoin(s[k + 1..m - 2], pair);
        assert s[k + 1..m] == s[k + 1..m - 2] + pair;
      } else if QuoteAt(s, m) == Double {
        assert [s[m - 1]][1..] == [];
        BodiesJoin(s[k + 1..m - 1], [s[m - 1]]);
        assert s[k + 1..m] == s[k + 1..m - 1] + [s[m - 1]];
      }
    }
  }

  // ---------------------------------------------------------------- the meaning

  lemma {:induction false} PrefixQuote(s: string, n: nat, k: nat)
    requires k <= n <= |s|
    ensures QuoteAt(s[..n], k) == QuoteAt(s, k)
  {
    assert s == s[..n] + s[n..];
    QuoteAtPrefix(s[..n], s[n..], k);
  }

  /** The end of a text is outside quotes iff the text is made of closed quotations and what is no quote. */
  lemma {:induction false} BareIffClosed(s: string)
    ensures QuoteAt(s, |s|) == Bare <==> Closed(s)
    decreases |s|
  {
    if s != [] {
      var n := |s| - 1;
      BareIffClosed(s[..n]);
      PrefixQuote(s, n, n);
      if QuoteAt(s, |s|) == Bare {
        ClosedIfBare(s);
      } else if Closed(s) {
        assert !(s[n] != '"' && s[n] != '\'' && Closed(s[..n]));
        var k :| 0 <= k < |s| && EndsWithQuotation(s, k) && Closed(s[..k]);
        BareIffClosed(s[..k]);
        PrefixQuote(s, k, k);
        QuotationPassed(s, k);
      }
    }
  }

  lemma {:induction false} ClosedIfBare(s: string)
    requires s != [] && QuoteAt(s, |s|) == Bare
    ensures Closed(s)
    decreases |s|, 0
  {
    var n := |s| - 1;
    if QuoteAt(s, n) == Bare {
      BareIffClosed(s[..n]);
      PrefixQuote(s, n, n);
    } else {
      var k;
      if QuoteAt(s, n) == Single {
        k := SingleOpened(s, n);
      } else {
        k := DoubleOpened(s, n);
      }
      assert s[k..][1..|s[k..]| - 1] == s[k + 1..n];
      assert EndsWithQuotation(s, k);
      BareIffClosed(s[..k]);
      PrefixQuote(s, k, k);
    }
  }

  // ---------------------------------------------------------------- what a line is

  /** A definition: a key, an equals sign, the first there is, and a value. */
  ghost predicate Defines(text: string, key: string, raw: string) {
    exists left, right :: text == left + "=" + right && '=' !in left && key == Trim(left) != [] && raw == Trim(right)
  }

  /** A header: a name in brackets. */
  ghost predicate Heads(text: string, name: string) {
    exists inner :: text == "[" + inner + "]" && name == Trim(inner) != []
  }

  lemma {:induction false} SplitMeans(text: string, left: string, right: string)
    ensures SplitOnce(text, '=') == Some((left, right)) <==> text == left + "=" + right && '=' !in left
    ensures SplitOnce(text, '=') == None <==> '=' !in text
  {
    var i := IndexOf(text, '=', 0);
    if i < |text| {
      assert text == text[..i] + "=" + text[i + 1..];
    }
    if text == left + "=" + right && '=' !in left {
      assert forall j :: 0 <= j < |left| ==> text[j] == left[j];
      assert text[|left|] == '=';
      assert text[..i] == left && text[i + 1..] == right;
    }
  }

  /** What a line means to the parser, with its comment and the white space around it gone. */
  lemma {:induction false} LineMeans(line: string, key: string, raw: string)
    ensures
      var text := Clean(line);
      && (Classify(line) == Blank <==> text == [])
      && (Classify(line) == Header(key) <==> Heads(text, key))
      && (Classify(line) == Entry(key, raw) <==> Defines(text, key, raw) && text[0] != '[')
  {
    var text := Clean(line);
    if text != [] {
      if text[0] == '[' {
        HeaderMeans(text, key);
      } else {
        var i := IndexOf(text, '=', 0);
        if i < |text| {
          SplitMeans(text, text[..i], text[i + 1..]);
        }
        if Defines(text, key, raw) {
          var left, right :| text == left + "=" + right && '=' !in left && key == Trim(left) != [] && raw == Trim(right);
          SplitMeans(text, left, right);
        }
      }
    }
  }

  lemma {:induction false} HeaderMeans(text: string, name: string)
    requires text != [] && text[0] == '['
    ensures Heads(text, name) <==> |text| >= 2 && text[|text| - 1] == ']' && Trim(text[1..|text| - 1]) == name != []
  {
    if |text| >= 2 && text[|text| - 1] == ']' {
      assert text == "[" + text[1..|text| - 1] + "]";
    }
    if inner :| text == "[" + inner + "]" && name == Trim(inner) != [] {
      assert text[1..|text| - 1] == inner;
    }
  }

  /** What is kept of a line: all of it, or what stands before its first number sign behind a closed text. */
  lemma {:induction false} UncommentedMeans(line: string)
    ensures
      var kept := Uncommented(line);
      && kept <= line
      && (kept != line ==> Closed(kept) && line[|kept|] == '#')
      && forall i :: 0 <= i < |kept| && line[i] == '#' ==> !Closed(line[..i])
  {
    var n := CommentStart(line, 0);
    forall i | 0 <= i < |line|
      ensures CommentAt(line, i) <==> line[i] == '#' && Closed(line[..i])
    {
      PrefixQuote(line, i, i);
      BareIffClosed(line[..i]);
    }
  }
}
