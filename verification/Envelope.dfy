/**
 The stored form of an encrypted value, "v1.nonce.ciphertext", with the cipher and the JSON form left
 abstract: a decryptor that is told how to open and parse.
 */
module Envelope {
  import opened Wrappers
  import opened Base64

  const PREFIX := "v1"
  const NONCE_LENGTH: nat := 24

  /** `text.split('.')` */
  function Split(text: string): (parts: seq<string>)
    ensures |parts| >= 1
  {
    if text == "" then [""]
    else
      var parts := Split(text[1..]);
      if text[0] == '.' then [""] + parts else [[text[0]] + parts[0]] + parts[1..]
  }

  function Encrypted(nonce: seq<Byte>, ciphertext: seq<Byte>): string
  {
    PREFIX + "." + Encode(nonce) + "." + Encode(ciphertext)
  }

  datatype Decrypted<T> = Value(value: T) | UnsupportedFormat | NotAuthentic

  function Decrypt<T>(text: string, open: (seq<Byte>, seq<Byte>) -> Option<seq<Byte>>,
      parse: seq<Byte> -> Option<T>): Decrypted<T>
  {
    var parts := Split(text);
    if |parts| != 3 || parts[0] != PREFIX || parts[1] == "" || parts[2] == "" then UnsupportedFormat
    else
      var nonce, ciphertext := Atob(parts[1]), Atob(parts[2]);
      if nonce.None? || ciphertext.None? || |nonce.value| != NONCE_LENGTH then NotAuthentic
      else
        match open(ciphertext.value, nonce.value)
        case None => NotAuthentic
        case Some(plain) =>
          match parse(plain)
          case None => NotAuthentic
          case Some(value) => Value(value)
  }

  /** Cutting at the first dot. */
  lemma {:induction false} SplitAtDot(a: string, b: string)
    requires '.' !in a
    ensures Split(a + "." + b) == [a] + Split(b)
  {
    if a == "" {
      assert a + "." + b == "." + b;
      assert ("." + b)[1..] == b;
    } else {
      SplitAtDot(a[1..], b);
      assert (a + "." + b)[1..] == a[1..] + "." + b;
      assert [a[0]] + a[1..] == a;
    }
  }

  lemma {:induction false} SplitWithoutDot(a: string)
    requires '.' !in a
    ensures Split(a) == [a]
  {
    if a == "" {
    } else {
      SplitWithoutDot(a[1..]);
      assert [a[0]] + a[1..] == a;
    }
  }

  /** The envelope splits back into its prefix, nonce and ciphertext. */
  lemma EnvelopeSplits(nonce: seq<Byte>, ciphertext: seq<Byte>)
    ensures Split(Encrypted(nonce, ciphertext)) == ["v1", Encode(nonce), Encode(ciphertext)]
  {
    NoDots(nonce);
    NoDots(ciphertext);
    SplitsInThree(Encode(nonce), Encode(ciphertext));
  }

  /** What was sealed is read back, for any cipher and printer that undo each other on this value. */
  lemma DecryptUndoesEncrypt<T>(nonce: seq<Byte>, ciphertext: seq<Byte>, plain: seq<Byte>, value: T,
      open: (seq<Byte>, seq<Byte>) -> Option<seq<Byte>>, parse: seq<Byte> -> Option<T>)
    requires |nonce| == NONCE_LENGTH && ciphertext != []
    requires open(ciphertext, nonce) == Some(plain) && parse(plain) == Some(value)
    ensures Decrypt(Encrypted(nonce, ciphertext), open, parse) == Value(value)
  {
    EnvelopeSplits(nonce, ciphertext);
    AtobUndoesEncode(nonce);
    AtobUndoesEncode(ciphertext);
    EncodedLength(nonce);
    EncodedLength(ciphertext);
  }

  /** The text is prefix, nonce and ciphertext with dots between, and those two decode to these bytes. */
  ghost predicate Spells(text: string, n: string, c: string, nonce: seq<Byte>, ciphertext: seq<Byte>)
  {
    && ThreeParts(text, n, c)
    && Atob(n) == Some(nonce) && Atob(c) == Some(ciphertext)
  }

  /** A text is accepted exactly when it spells a 24-byte nonce and a ciphertext that opens and parses to the value. */
  lemma AcceptedIff<T>(text: string, value: T, open: (seq<Byte>, seq<Byte>) -> Option<seq<Byte>>,
      parse: seq<Byte> -> Option<T>)
    ensures Decrypt(text, open, parse) == Value(value) <==>
            exists n, c, nonce, ciphertext ::
              && Spells(text, n, c, nonce, ciphertext) && |nonce| == 24
              && open(ciphertext, nonce).Some? && parse(open(ciphertext, nonce).value) == Some(value)
  {
    if n, c, nonce, ciphertext :|
      && Spells(text, n, c, nonce, ciphertext) && |nonce| == NONCE_LENGTH
      && open(ciphertext, nonce).Some? && parse(open(ciphertext, nonce).value) == Some(value)
    {
      SplitsInThree(n, c);
    }
    if Decrypt(text, open, parse) == Value(value) {
      var parts := Split(text);
      SplitJoins(text);
      PartsHaveNoDots(text);
      ThreeJoined(parts[0], parts[1], parts[2]);
      assert parts == [parts[0], parts[1], parts[2]];
      assert Spells(text, parts[1], parts[2], Atob(parts[1]).value, Atob(parts[2]).value);
    }
  }

  /** A text is reported as unsupported exactly when it is not the prefix and two non-empty parts with dots between. */
  lemma UnsupportedIff<T>(text: string, open: (seq<Byte>, seq<Byte>) -> Option<seq<Byte>>,
      parse: seq<Byte> -> Option<T>)
    ensures Decrypt(text, open, parse).UnsupportedFormat? <==>
            !exists n, c :: ThreeParts(text, n, c)
  {
    if n, c :| ThreeParts(text, n, c) { SplitsInThree(n, c); }
    if !Decrypt(text, open, parse).UnsupportedFormat? {
      var parts := Split(text);
      SplitJoins(text);
      PartsHaveNoDots(text);
      ThreeJoined(parts[0], parts[1], parts[2]);
      assert parts == [parts[0], parts[1], parts[2]];
      assert ThreeParts(text, parts[1], parts[2]);
    }
  }

  predicate ThreeParts(text: string, n: string, c: string)
  {
    text == "v1" + "." + n + "." + c && n != "" && c != "" && '.' !in n && '.' !in c
  }

  /** An accepted text is the envelope that encryption writes exactly when the strict decoder reads both parts. */
  lemma CanonicalEnvelopeIff(text: string, n: string, c: string, nonce: seq<Byte>, ciphertext: seq<Byte>)
    requires Spells(text, n, c, nonce, ciphertext)
    ensures text == Encrypted(nonce, ciphertext) <==> Decode(n).Some? && Decode(c).Some?
  {
    CanonicalIff(n);
    CanonicalIff(c);
    if text == Encrypted(nonce, ciphertext) {
      SplitsInThree(n, c);
      EnvelopeSplits(nonce, ciphertext);
    }
  }

  /** An envelope without its padding is read all the same, although encryption never writes it. */
  lemma PaddingMayBeMissing<T>(nonce: seq<Byte>, ciphertext: seq<Byte>, value: T,
      open: (seq<Byte>, seq<Byte>) -> Option<seq<Byte>>, parse: seq<Byte> -> Option<T>)
    requires Decrypt(Encrypted(nonce, ciphertext), open, parse) == Value(value) && |ciphertext| % 3 != 0
    ensures var stripped := PREFIX + "." + Encode(nonce) + "." + Unpadded(Encode(ciphertext));
            stripped != Encrypted(nonce, ciphertext) && Decrypt(stripped, open, parse) == Value(value)
  {
    var n, c := Encode(nonce), Unpadded(Encode(ciphertext));
    EnvelopeSplits(nonce, ciphertext);
    NoDots(nonce);
    NoDots(ciphertext);
    AtobUndoesEncode(nonce);
    AtobUndoesEncode(ciphertext);
    PaddingIsOptional(ciphertext);
    EncodedLength(ciphertext);
    SplitsInThree(n, c);
    SplitsInThree(n, Encode(ciphertext));
  }

  lemma SplitsInThree(n: string, c: string)
    requires '.' !in n && '.' !in c
    ensures Split(PREFIX + "." + n + "." + c) == [PREFIX, n, c]
  {
    SplitWithoutDot(c);
    SplitAtDot(n, c);
    SplitAtDot(PREFIX, n + "." + c);
    assert PREFIX + "." + n + "." + c == PREFIX + "." + (n + "." + c);
  }

  lemma {:induction false} PartsHaveNoDots(text: string)
    ensures forall i | 0 <= i < |Split(text)| :: '.' !in Split(text)[i]
  {
    if text == "" {
    } else {
      PartsHaveNoDots(text[1..]);
    }
  }

  function Join(parts: seq<string>): string
  {
    if parts == [] then "" else if |parts| == 1 then parts[0] else parts[0] + "." + Join(parts[1..])
  }

  lemma {:induction false} SplitJoins(text: string)
    ensures Join(Split(text)) == text
  {
    if text == "" {
    } else {
      SplitJoins(text[1..]);
      if text[0] == '.' { JoinAfterDot(Split(text[1..])); } else { JoinLonger(text[0], Split(text[1..])); }
      assert text == [text[0]] + text[1..];
    }
  }

  lemma JoinAfterDot(parts: seq<string>)
    requires parts != []
    ensures Join([""] + parts) == "." + Join(parts)
  {
    assert ([""] + parts)[1..] == parts;
  }

  lemma JoinLonger(c: char, parts: seq<string>)
    requires parts != []
    ensures Join([[c] + parts[0]] + parts[1..]) == [c] + Join(parts)
  {
    var longer := [[c] + parts[0]] + parts[1..];
    assert longer[1..] == parts[1..];
    if |parts| > 1 { Regroup([c], parts[0], "." + Join(parts[1..])); }
  }

  lemma ThreeJoined(a: string, b: string, c: string)
    ensures Join([a, b, c]) == a + "." + b + "." + c
  {
    assert [a, b, c][1..] == [b, c] && [b, c][1..] == [c];
    assert Join([b, c]) == b + "." + Join([c]);
    assert Join([a, b, c]) == a + "." + Join([b, c]);
    assert a + "." + (b + "." + c) == a + "." + b + "." + c;
  }
}
