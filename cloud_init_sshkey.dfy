/**
 * The renderer of the sshkey row of the cloud-init grid: of a recognised
 * public key line it shows the comment, noting an options prefix; anything
 * else is shown as it is.
 *
 * decodeURIComponent and Ext.String.htmlEncode are not part of this model:
 * they are parameters.
 */
module CloudInitSshKey {
  import opened Js

  const WithOptions: string := " <span style=\"color:gray\">(with options)</span>"

  /** The length of the run of white space that starts s. */
  function SpaceRun(s: string): (k: nat)
    ensures k <= |s| && forall i :: 0 <= i < k ==> IsSpace(s[i])
    ensures k == |s| || !IsSpace(s[k])
  {
    if s != [] && IsSpace(s[0]) then 1 + SpaceRun(s[1..]) else 0
  }

  /** The length of the run of non-white-space characters that starts s. */
  function WordRun(s: string): (k: nat)
    ensures k <= |s| && NoSpace(s[..k])
    ensures k == |s| || IsSpace(s[k])
  {
    if s != [] && !IsSpace(s[0]) then
      var k := 1 + WordRun(s[1..]);
      assert s[..k] == [s[0]] + s[1..][..k - 1];
      k
    else 0
  }

  predicate NoLineTerminator(s: string)
  {
    forall i :: 0 <= i < |s| ==> !IsLineTerminator(s[i])
  }

  /**
   * The end of the quoted string whose opening quote precedes position j:
   * escaped characters (a backslash and any character but a line
   * terminator) and characters other than quote and backslash, up to the
   * closing quote; None when there is none.
   */
  function QuotedEnd(v: string, j: nat): (r: Option<nat>)
    ensures r.Some? ==> j < r.value <= |v| && v[r.value - 1] == '"'
    decreases |v| - j
  {
    if j >= |v| then None
    else if v[j] == '"' then Some(j + 1)
    else if v[j] == '\\' then
      if j + 1 < |v| && !IsLineTerminator(v[j + 1]) then QuotedEnd(v, j + 2) else None
    else QuotedEnd(v, j + 1)
  }

  /** Every quoted string is erased, left to right; an unterminated quote stays. */
  function StripQuoted(v: string): (r: string)
    ensures |r| <= |v|
    decreases |v|
  {
    if v == [] then []
    else if v[0] == '"' && QuotedEnd(v, 1).Some? then StripQuoted(v[QuotedEnd(v, 1).value..])
    else [v[0]] + StripQuoted(v[1..])
  }

  /** A text without quotes is left as it is. */
  lemma {:induction false} StripQuotedNoQuote(v: string)
    requires '"' !in v
    ensures StripQuoted(v) == v
    decreases |v|
  {
    if v != [] {
      assert '"' !in v[1..];
      StripQuotedNoQuote(v[1..]);
      assert v == [v[0]] + v[1..];
    }
  }

  /** The key types: ssh-dss, ssh-rsa, ssh-ed25519 and ecdsa-sha2-nistp followed by digits. */
  predicate IsKeyType(t: string)
  {
    t == "ssh-dss" || t == "ssh-rsa" || t == "ssh-ed25519"
    || (IsPrefix("ecdsa-sha2-nistp", t) && |t| > 16 && AllDigits(t[16..]))
  }

  /**
   * The part of the expression from the key type on: a key type, white
   * space, the key, white space, then the comment up to trailing white
   * space, which may not hold a line terminator.
   */
  function TypeKeyComment(t: string): (r: Option<string>)
    ensures r.Some? ==> NoLineTerminator(r.value) && (r.value == [] || !IsSpace(r.value[|r.value| - 1]))
  {
    var a := WordRun(t);
    if !IsKeyType(t[..a]) then None else KeyComment(t[a..])
  }

  /** After the key type: white space, the key, then the comment part. */
  function KeyComment(r1: string): (r: Option<string>)
    ensures r.Some? ==> NoLineTerminator(r.value) && (r.value == [] || !IsSpace(r.value[|r.value| - 1]))
  {
    var b := SpaceRun(r1);
    if b == 0 then None
    else
      var r2 := r1[b..];
      var c := WordRun(r2);
      if c == 0 then None else Comment(r2[c..])
  }

  /** After the key: white space, then the comment up to trailing white space, without a line terminator. */
  function Comment(r3: string): (r: Option<string>)
    ensures r.Some? ==> NoLineTerminator(r.value) && (r.value == [] || !IsSpace(r.value[|r.value| - 1]))
  {
    var d := SpaceRun(r3);
    if d == 0 then None
    else
      var comment := TrimEnd(r3[d..]);
      if NoLineTerminator(comment) then Some(comment) else None
  }

  /**
   * The whole expression: leading white space, then first an attempt with
   * an options word and white space before the key type, then one without.
   * The result says whether the options prefix was there, and the comment.
   */
  function KeyLine(v: string): (r: Option<(bool, string)>)
  {
    var s0 := v[SpaceRun(v)..];
    var a := WordRun(s0);
    var b := SpaceRun(s0[a..]);
    if a > 0 && b > 0 && TypeKeyComment(s0[a + b..]).Some? then Some((true, TypeKeyComment(s0[a + b..]).value))
    else if TypeKeyComment(s0).Some? then Some((false, TypeKeyComment(s0).value))
    else None
  }

  /** The sshkey renderer. */
  function Render(value: string, decode: string -> string, htmlEncode: string -> string): string
  {
    var v := decode(value);
    if |v| > 0 && KeyLine(StripQuoted(v)).Some? then
      var line := KeyLine(StripQuoted(v)).value;
      htmlEncode(line.1) + (if line.0 then WithOptions else "")
    else htmlEncode(v)
  }

  lemma {:induction false} WordRunOf(w: string, rest: string)
    requires NoSpace(w) && (rest == [] || IsSpace(rest[0]))
    ensures WordRun(w + rest) == |w|
    decreases |w|
  {
    if w == [] {
      assert w + rest == rest;
    } else {
      assert (w + rest)[1..] == w[1..] + rest;
      WordRunOf(w[1..], rest);
    }
  }

  /** Words separated by single spaces: w, a space, then rest. */
  function Spaced(w: string, rest: string): string
  {
    w + ([' '] + rest)
  }

  /** Reading a word and the one space after it. */
  lemma WordThenSpace(w: string, rest: string)
    requires NoSpace(w) && (rest == [] || !IsSpace(rest[0]))
    ensures var t := Spaced(w, rest);
            WordRun(t) == |w| && t[..|w|] == w && t[|w|..][..0] == [] && SpaceRun(t[|w|..]) == 1 && t[|w|..][1..] == rest
  {
    var t := Spaced(w, rest);
    WordRunOf(w, [' '] + rest);
    assert t[|w|..] == [' '] + rest;
    assert ([' '] + rest)[1..] == rest;
  }

  /** Comments as a key line carries them: no line terminator, no white space at either end. */
  predicate IsComment(c: string)
  {
    NoLineTerminator(c) && (c == [] || (!IsSpace(c[0]) && !IsSpace(c[|c| - 1])))
  }

  /** "type key comment" is taken apart into its comment. */
  lemma TypeKeyCommentOf(typ: string, key: string, comment: string)
    requires IsKeyType(typ) && NoSpace(typ) && key != [] && NoSpace(key) && IsComment(comment)
    ensures TypeKeyComment(Spaced(typ, Spaced(key, comment))) == Some(comment)
  {
    var r2 := Spaced(key, comment);
    assert r2[0] == key[0];
    WordThenSpace(typ, r2);
    WordThenSpace(key, comment);
    assert TrimEnd(comment) == comment;
  }

  lemma KeyTypeNoSpace(typ: string)
    requires IsKeyType(typ)
    ensures NoSpace(typ) && typ != [] && '"' !in typ
  {
    KeyTypeTokens(typ);
    TokenPlain(typ);
  }

  /** A printable ASCII character other than the quote. */
  predicate TokenChar(c: char) { '!' <= c <= '~' && c != '"' }

  predicate Token(s: string) { forall i :: 0 <= i < |s| ==> TokenChar(s[i]) }

  lemma TokenPlain(s: string)
    requires Token(s)
    ensures NoSpace(s) && '"' !in s
  {
    forall i | 0 <= i < |s| ensures !IsSpace(s[i]) {
      assert TokenChar(s[i]);
    }
  }

  lemma KeyTypeTokens(typ: string)
    requires IsKeyType(typ)
    ensures Token(typ) && typ != []
  {
    if IsPrefix("ecdsa-sha2-nistp", typ) && |typ| > 16 && AllDigits(typ[16..]) {
      EcdsaToken(typ);
    }
  }

  lemma EcdsaToken(typ: string)
    requires IsPrefix("ecdsa-sha2-nistp", typ) && |typ| > 16 && AllDigits(typ[16..])
    ensures Token(typ)
  {
    forall i | 0 <= i < |typ| ensures TokenChar(typ[i]) {
      if i < 16 {
        assert typ[i] == typ[..16][i];
      } else {
        assert typ[i] == typ[16..][i - 16];
      }
    }
  }

  /** The key line "type key comment". */
  function Line(typ: string, key: string, comment: string): string
  {
    Spaced(typ, Spaced(key, comment))
  }

  /**
   * A key line without options whose key is not itself a key type is
   * recognised with its comment and no options.
   */
  lemma KeyLinePlain(typ: string, key: string, comment: string)
    requires IsKeyType(typ) && key != [] && NoSpace(key) && !IsKeyType(key) && IsComment(comment)
    ensures KeyLine(Line(typ, key, comment)) == Some((false, comment))
  {
    KeyTypeNoSpace(typ);
    var v := Line(typ, key, comment);
    var r2 := Spaced(key, comment);
    assert r2[0] == key[0];
    assert SpaceRun(v) == 0 by { assert v[0] == typ[0]; }
    assert v[0..] == v;
    WordThenSpace(typ, r2);
    assert v[|typ| + 1..] == r2;
    WordThenSpace(key, comment);
    TypeKeyCommentOf(typ, key, comment);
  }

  /** A key line with an options word in front is recognised with its comment and the options noted. */
  lemma KeyLineWithOptions(opts: string, typ: string, key: string, comment: string)
    requires opts != [] && NoSpace(opts)
    requires IsKeyType(typ) && key != [] && NoSpace(key) && IsComment(comment)
    ensures KeyLine(Spaced(opts, Line(typ, key, comment))) == Some((true, comment))
  {
    KeyTypeNoSpace(typ);
    var line := Line(typ, key, comment);
    var v := Spaced(opts, line);
    assert line[0] == typ[0];
    assert SpaceRun(v) == 0 by { assert v[0] == opts[0]; }
    assert v[0..] == v;
    WordThenSpace(opts, line);
    assert v[|opts| + 1..] == line;
    TypeKeyCommentOf(typ, key, comment);
  }

  /** A key line with options and without quotes renders as its encoded comment, marked as having options. */
  lemma RenderKeyLine(opts: string, typ: string, key: string, comment: string,
                      decode: string -> string, htmlEncode: string -> string)
    requires opts != [] && NoSpace(opts) && '"' !in opts
    requires IsKeyType(typ) && key != [] && NoSpace(key) && '"' !in key && IsComment(comment) && '"' !in comment
    requires decode(Spaced(opts, Line(typ, key, comment))) == Spaced(opts, Line(typ, key, comment))
    ensures Render(Spaced(opts, Line(typ, key, comment)), decode, htmlEncode) == htmlEncode(comment) + WithOptions
  {
    var v := Spaced(opts, Line(typ, key, comment));
    KeyTypeNoSpace(typ);
    assert '"' !in v;
    StripQuotedNoQuote(v);
    KeyLineWithOptions(opts, typ, key, comment);
  }

  /** Quoted option values are erased before the key line is read. */
  lemma StripQuotedString(q: string, rest: string)
    requires '"' !in q && '\\' !in q
    ensures StripQuoted("\"" + q + "\"" + rest) == StripQuoted(rest)
  {
    var v := "\"" + q + "\"" + rest;
    QuotedEndPlain(v, 1, |q|);
    assert v[|q| + 2..] == rest;
  }

  lemma {:induction false} QuotedEndPlain(v: string, j: nat, n: nat)
    requires j + n < |v| && v[j + n] == '"'
    requires forall i :: j <= i < j + n ==> v[i] != '"' && v[i] != '\\'
    ensures QuotedEnd(v, j) == Some(j + n + 1)
    decreases n
  {
    if n > 0 {
      QuotedEndPlain(v, j + 1, n - 1);
    }
  }

  /** Erasing quoted strings keeps a text free of white space. */
  lemma {:induction false} StripQuotedNoSpace(v: string)
    requires NoSpace(v)
    ensures NoSpace(StripQuoted(v))
    decreases |v|
  {
    if v != [] {
      if v[0] == '"' && QuotedEnd(v, 1).Some? {
        StripQuotedNoSpace(v[QuotedEnd(v, 1).value..]);
      } else {
        StripQuotedNoSpace(v[1..]);
        var t := StripQuoted(v[1..]);
        assert forall i :: 0 <= i < |t| ==> ([v[0]] + t)[i + 1] == t[i];
      }
    }
  }

  /** A text without white space is no key line: it has no room for the type, the key and the comment. */
  lemma KeyLineNeedsSpace(v: string)
    requires NoSpace(v)
    ensures KeyLine(v) == None
  {
    assert v[SpaceRun(v)..] == v;
    var a := WordRun(v);
    assert a == |v|;
    assert SpaceRun(v[a..]) == 0;
  }

  /** Anything that decodes to a text without white space is shown as it is, HTML-encoded. */
  lemma RenderPlainText(value: string, decode: string -> string, htmlEncode: string -> string)
    requires NoSpace(decode(value))
    ensures Render(value, decode, htmlEncode) == htmlEncode(decode(value))
  {
    StripQuotedNoSpace(decode(value));
    KeyLineNeedsSpace(StripQuoted(decode(value)));
  }
}
