/**
 * The texts SASToken_Create produces: the string that is signed and the
 * token itself, with a parser that recovers the token's fields so that the
 * format can be shown to determine them.
 */
module TokenFormat {
  import opened Wrappers

  const Prefix := "SharedAccessSignature sr="
  const SignatureLabel := "&sig="
  const ExpiryLabel := "&se="
  const KeyNameLabel := "&skn="

  /** The text that is HMAC'd: the scope, a newline, the expiry text. */
  function ToBeSigned(scope: string, expiry: string): string
  {
    scope + "\n" + expiry
  }

  datatype Fields = Fields(scope: string, signature: string, expiry: string, keyName: string)

  /** The labels in front of the four fields of a token, in order. */
  datatype Labels = Labels(lead: string, signature: string, expiry: string, keyName: string)

  const TokenLabels := Labels(Prefix, SignatureLabel, ExpiryLabel, KeyNameLabel)

  /** The labels and the field values interleaved: label, value, label, value, ... */
  function Render(l: Labels, f: Fields): string
  {
    l.lead + f.scope + l.signature + f.signature + l.expiry + f.expiry + l.keyName + f.keyName
  }

  /** The token: its four fields in fixed order behind the fixed labels. */
  function TokenText(scope: string, signature: string, expiry: string, keyName: string): string
  {
    Render(TokenLabels, Fields(scope, signature, expiry, keyName))
  }

  /** Every label after the first starts with the field separator '&'. */
  predicate Separated(l: Labels)
  {
    && |l.signature| > 0 && l.signature[0] == '&'
    && |l.expiry| > 0 && l.expiry[0] == '&'
    && |l.keyName| > 0 && l.keyName[0] == '&'
  }

  /** The first three field values hold no '&', so the separator can delimit them. */
  predicate Delimitable(f: Fields)
  {
    '&' !in f.scope && '&' !in f.signature && '&' !in f.expiry
  }

  /** The position of the first `c` in `s`, or |s| when there is none. */
  function IndexOf(s: string, c: char): (r: nat)
    ensures r <= |s|
    ensures r < |s| ==> s[r] == c
    ensures forall i :: 0 <= i < r ==> s[i] != c
  {
    if s == [] then 0
    else if s[0] == c then 0
    else 1 + IndexOf(s[1..], c)
  }

  /** Splits `s` before its first '&': the field value and the rest. */
  function SplitField(s: string): (r: (string, string))
    ensures r.0 + r.1 == s
    ensures '&' !in r.0
    ensures r.1 == [] || r.1[0] == '&'
  {
    var i := IndexOf(s, '&');
    (s[..i], s[i..])
  }

  /**
   * Reads one labelled field off the front of `s`: `s` must start with
   * `tag`; the value runs up to the next '&'. Gives the value and the rest.
   */
  function Field(tag: string, s: string): Option<(string, string)>
  {
    if tag <= s then Some(SplitField(s[|tag|..])) else None
  }

  /** Reads a text laid out with the labels `l` back into its fields; None when it is not. */
  function Parse(l: Labels, t: string): Option<Fields>
  {
    var scope := Field(l.lead, t);
    if scope.None? then None
    else
      var signature := Field(l.signature, scope.value.1);
      if signature.None? then None
      else
        var expiry := Field(l.expiry, signature.value.1);
        if expiry.None? || !(l.keyName <= expiry.value.1) then None
        else Some(Fields(scope.value.0, signature.value.0, expiry.value.0, expiry.value.1[|l.keyName|..]))
  }

  /** Reads a token back into its fields; None when `t` is not in token form. */
  function ParseToken(t: string): Option<Fields>
  {
    Parse(TokenLabels, t)
  }

  /** A field value free of '&' is split off exactly at the '&' that follows it. */
  lemma SplitFieldOf(value: string, rest: string)
    requires '&' !in value
    requires rest == [] || rest[0] == '&'
    ensures SplitField(value + rest) == (value, rest)
  {
    var s := value + rest;
    assert forall j :: 0 <= j < |value| ==> s[j] == value[j];
    if rest != [] {
      assert s[|value|] == rest[0];
    }
    assert IndexOf(s, '&') == |value|;
  }

  /** A labelled field free of '&' is read back as written, leaving the rest. */
  lemma FieldOf(tag: string, value: string, rest: string)
    requires '&' !in value
    requires rest == [] || rest[0] == '&'
    ensures Field(tag, tag + value + rest) == Some((value, rest))
  {
    var s := tag + value + rest;
    assert tag <= s;
    assert s[|tag|..] == value + rest;
    SplitFieldOf(value, rest);
  }

  /** Whatever `Field` reads is the tag, the value and the rest, in that order. */
  lemma FieldSound(tag: string, s: string)
    requires Field(tag, s).Some?
    ensures var (value, rest) := Field(tag, s).value;
            && '&' !in value && (rest == [] || rest[0] == '&')
            && s == tag + value + rest
  {
    DropPrefix(tag, s);
  }

  /** A text that starts with `tag` is `tag` followed by what comes after it. */
  lemma DropPrefix(tag: string, s: string)
    requires tag <= s
    ensures s == tag + s[|tag|..]
  {
    assert s[..|tag|] == tag;
    assert s == s[..|tag|] + s[|tag|..];
  }

  /** Round trip for any separated labels: the rendered text parses back to its fields. */
  lemma ParseRender(l: Labels, f: Fields)
    requires Separated(l) && Delimitable(f)
    ensures Parse(l, Render(l, f)) == Some(f)
  {
    var rest3 := l.keyName + f.keyName;
    var rest2 := l.expiry + f.expiry + rest3;
    var rest1 := l.signature + f.signature + rest2;
    assert Field(l.lead, Render(l, f)) == Some((f.scope, rest1)) by {
      assert Render(l, f) == l.lead + f.scope + rest1;
      Lead(l.signature, f.signature + rest2);
      assert rest1 == l.signature + (f.signature + rest2);
      FieldOf(l.lead, f.scope, rest1);
    }
    assert Field(l.signature, rest1) == Some((f.signature, rest2)) by {
      Lead(l.expiry, f.expiry + rest3);
      assert rest2 == l.expiry + (f.expiry + rest3);
      FieldOf(l.signature, f.signature, rest2);
    }
    assert Field(l.expiry, rest2) == Some((f.expiry, rest3)) && l.keyName <= rest3 && rest3[|l.keyName|..] == f.keyName by {
      Lead(l.keyName, f.keyName);
      FieldOf(l.expiry, f.expiry, rest3);
    }
    ParseOf(l, Render(l, f), f, rest1, rest2, rest3);
  }

  /** `Parse` reads the fields off `t` once each labelled field is read off in turn. */
  lemma ParseOf(l: Labels, t: string, f: Fields, rest1: string, rest2: string, rest3: string)
    requires Field(l.lead, t) == Some((f.scope, rest1))
    requires Field(l.signature, rest1) == Some((f.signature, rest2))
    requires Field(l.expiry, rest2) == Some((f.expiry, rest3))
    requires l.keyName <= rest3 && rest3[|l.keyName|..] == f.keyName
    ensures Parse(l, t) == Some(f)
  {
  }

  /** A non-empty `tag` leads `tag + s`: it is a prefix, its first character comes first, and dropping it leaves `s`. */
  lemma Lead(tag: string, s: string)
    requires |tag| > 0
    ensures tag <= tag + s && (tag + s)[0] == tag[0] && (tag + s)[|tag|..] == s
  {
  }

  /** Soundness for any labels: whatever parses is the rendering of the fields it parses to. */
  lemma ParseSound(l: Labels, t: string)
    requires Parse(l, t).Some?
    ensures Delimitable(Parse(l, t).value) && Render(l, Parse(l, t).value) == t
  {
    var f := Parse(l, t).value;
    var scope := Field(l.lead, t).value;
    var signature := Field(l.signature, scope.1).value;
    var expiry := Field(l.expiry, signature.1).value;
    assert f == Fields(scope.0, signature.0, expiry.0, expiry.1[|l.keyName|..]);
    assert t == l.lead + scope.0 + scope.1 && '&' !in scope.0 by {
      FieldSound(l.lead, t);
    }
    assert scope.1 == l.signature + signature.0 + signature.1 && '&' !in signature.0 by {
      FieldSound(l.signature, scope.1);
    }
    assert signature.1 == l.expiry + expiry.0 + expiry.1 && '&' !in expiry.0 by {
      FieldSound(l.expiry, signature.1);
    }
    DropPrefix(l.keyName, expiry.1);
    Reassemble(t, l.lead, f.scope, scope.1, l.signature, f.signature, signature.1,
               l.expiry, f.expiry, expiry.1, l.keyName, f.keyName);
  }

  /** Splicing the pieces a text was read into back together gives the text. */
  lemma Reassemble(t: string, tag1: string, value1: string, rest1: string,
                   tag2: string, value2: string, rest2: string,
                   tag3: string, value3: string, rest3: string,
                   tag4: string, value4: string)
    requires t == tag1 + value1 + rest1
    requires rest1 == tag2 + value2 + rest2
    requires rest2 == tag3 + value3 + rest3
    requires rest3 == tag4 + value4
    ensures t == tag1 + value1 + tag2 + value2 + tag3 + value3 + tag4 + value4
  {
  }

  /** Round trip: a token whose first three fields hold no '&' parses back to its fields. */
  lemma ParseTokenText(scope: string, signature: string, expiry: string, keyName: string)
    requires '&' !in scope && '&' !in signature && '&' !in expiry
    ensures ParseToken(TokenText(scope, signature, expiry, keyName)) == Some(Fields(scope, signature, expiry, keyName))
  {
    assert Separated(TokenLabels);
    ParseRender(TokenLabels, Fields(scope, signature, expiry, keyName));
  }

  /** Soundness: whatever parses is the token of the fields it parses to. */
  lemma ParseTokenSound(t: string)
    requires ParseToken(t).Some?
    ensures var f := ParseToken(t).value;
            && '&' !in f.scope && '&' !in f.signature && '&' !in f.expiry
            && TokenText(f.scope, f.signature, f.expiry, f.keyName) == t
  {
    ParseSound(TokenLabels, t);
  }

  /** The token determines its fields: two tokens are equal only if their fields are. */
  lemma TokenTextInjective(a: Fields, b: Fields)
    requires '&' !in a.scope && '&' !in a.signature && '&' !in a.expiry
    requires '&' !in b.scope && '&' !in b.signature && '&' !in b.expiry
    requires TokenText(a.scope, a.signature, a.expiry, a.keyName) == TokenText(b.scope, b.signature, b.expiry, b.keyName)
    ensures a == b
  {
    ParseTokenText(a.scope, a.signature, a.expiry, a.keyName);
    ParseTokenText(b.scope, b.signature, b.expiry, b.keyName);
  }

  /** In the signed text the separator sits right after the scope, and no newline follows it. */
  lemma LastNewline(scope: string, expiry: string)
    requires '\n' !in expiry
    ensures ToBeSigned(scope, expiry)[|scope|] == '\n'
    ensures forall j :: |scope| < j < |ToBeSigned(scope, expiry)| ==> ToBeSigned(scope, expiry)[j] != '\n'
  {
    var t := ToBeSigned(scope, expiry);
    assert forall j :: |scope| < j < |t| ==> t[j] == expiry[j - |scope| - 1];
  }

  /**
   * The signed text determines the scope and the expiry text, as long as the
   * expiry text has no newline: exactly one separator, none trailing.
   */
  lemma ToBeSignedInjective(scope1: string, expiry1: string, scope2: string, expiry2: string)
    requires '\n' !in expiry1 && '\n' !in expiry2
    requires ToBeSigned(scope1, expiry1) == ToBeSigned(scope2, expiry2)
    ensures scope1 == scope2 && expiry1 == expiry2
  {
    var t := ToBeSigned(scope1, expiry1);
    LastNewline(scope1, expiry1);
    LastNewline(scope2, expiry2);
    assert |scope1| == |scope2|;
    assert expiry1 == t[|scope1| + 1..] == expiry2;
    assert scope1 == t[..|scope1|] == scope2;
  }
}
