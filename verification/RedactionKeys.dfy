/** Which keys are sensitive, said of their letters, and what becomes of a field under one. */
module RedactionKeys {
  import opened Wrappers
  import opened Redaction
  import opened RedactionFacts
  import Text
  import PaymentReference

  // ---------- Spelling ----------

  /** The letter, or its capital. */
  predicate SameLetter(c: char, letter: char) {
    c == letter || ('a' <= letter <= 'z' && c as int + 32 == letter as int)
  }

  /** The word in any mixture of capitals and small letters. */
  predicate Spells(s: string, word: string) {
    |s| == |word| && forall i | 0 <= i < |word| :: SameLetter(s[i], word[i])
  }

  /** Somewhere in the key, with anything before it and after it, stands the word so spelled. */
  ghost predicate HasWord(key: string, word: string) {
    exists i: nat :: SpelledAt(key, word, i)
  }

  predicate SpelledAt(key: string, word: string, i: nat) {
    i + |word| <= |key| && Spells(key[i..i + |word|], word)
  }

  /** A word of small letters, digits and signs below the accented letters. */
  predicate Small(word: string) {
    forall i | 0 <= i < |word| :: word[i] < '\U{0080}' && !('A' <= word[i] <= 'Z')
  }

  lemma LowersTo(c: char, letter: char)
    requires letter < '\U{0080}' && !('A' <= letter <= 'Z')
    ensures Text.LowerChar(c) == letter <==> SameLetter(c, letter)
  {
  }

  lemma StandsAt(key: string, word: string, i: nat)
    requires Small(word)
    ensures Text.At(Text.Lower(key), word, i) <==> SpelledAt(key, word, i)
  {
    if i + |word| <= |key| {
      var low, part, spelled := Text.Lower(key), Text.Lower(key)[i..i + |word|], key[i..i + |word|];
      forall k | 0 <= k < |word| ensures part[k] == word[k] <==> SameLetter(spelled[k], word[k]) {
        assert part[k] == low[i + k] == Text.LowerChar(key[i + k]) && spelled[k] == key[i + k];
        LowersTo(key[i + k], word[k]);
      }
      if Spells(spelled, word) { assert part == word; }
    }
  }

  lemma ContainsWord(key: string, word: string)
    requires Small(word)
    ensures Text.Contains(Text.Lower(key), word) <==> HasWord(key, word)
  {
    if HasWord(key, word) {
      var i: nat :| SpelledAt(key, word, i);
      StandsAt(key, word, i);
    }
    if Text.Contains(Text.Lower(key), word) {
      StandsAt(key, word, Text.IndexOf(Text.Lower(key), word));
    }
  }

  lemma WordsAreSmall(k: nat)
    requires k < |REDACTED_KEYS|
    ensures Small(REDACTED_KEYS[k])
  {
    assert |REDACTED_KEYS| == 11;
  }

  /** A key is sensitive exactly when one of the words stands in it, whatever its capitals and whatever surrounds it. */
  lemma SensitiveMeans(key: string)
    ensures Sensitive(key) <==> exists k :: 0 <= k < |REDACTED_KEYS| && HasWord(key, REDACTED_KEYS[k])
  {
    Text.ContainsAnyMeans(Text.Lower(key), REDACTED_KEYS);
    forall k | 0 <= k < |REDACTED_KEYS|
      ensures Text.Contains(Text.Lower(key), REDACTED_KEYS[k]) <==> HasWord(key, REDACTED_KEYS[k])
    {
      WordsAreSmall(k);
      ContainsWord(key, REDACTED_KEYS[k]);
    }
  }

  predicate IsWord(word: string) {
    || word == "authorization" || word == "x-signature" || word == "access_token" || word == "refresh_token"
    || word == "client_secret" || word == "secret" || word == "password" || word == "token"
    || word == "card_number" || word == "security_code" || word == "cvv"
  }

  lemma ListedAreTheWords(word: string)
    ensures word in REDACTED_KEYS <==> IsWord(word)
  {
  }

  /** The words are these eleven. */
  lemma TheWords(key: string)
    ensures Sensitive(key) <==> exists word :: IsWord(word) && HasWord(key, word)
  {
    SensitiveMeans(key);
    if k :| 0 <= k < |REDACTED_KEYS| && HasWord(key, REDACTED_KEYS[k]) {
      ListedAreTheWords(REDACTED_KEYS[k]);
    }
    if word :| IsWord(word) && HasWord(key, word) {
      ListedAreTheWords(word);
      var k :| 0 <= k < |REDACTED_KEYS| && REDACTED_KEYS[k] == word;
      assert HasWord(key, REDACTED_KEYS[k]);
    }
  }

  // ---------- Fields ----------

  /** A member's own place is noted exactly when its key is sensitive, within the depth limit. */
  lemma MemberIsNoted(fields: seq<Field>, i: nat, depth: nat)
    requires i < |fields|
    ensures [Member(i, fields[i].key)] in Places(Object(fields), depth) <==> depth <= MAX_DEPTH && Sensitive(fields[i].key)
  {
    var place := [Member(i, fields[i].key)];
    NotedIsReached(Object(fields), depth, place);
    assert place[1..] == [];
    assert Members(Object(fields)) == Some(fields);
  }

  /** Within the depth limit, a field whose key has one of the words is written with the mark, and its place noted. */
  lemma FieldWithAWord(fields: seq<Field>, i: nat, k: nat, depth: nat)
    requires i < |fields| && k < |REDACTED_KEYS| && HasWord(fields[i].key, REDACTED_KEYS[k]) && depth <= 8
    ensures var written := Redact(Object(fields), depth);
            && written.Object? && |written.fields| == |fields|
            && written.fields[i] == Field(fields[i].key, Primitive("[REDACTADO]"))
    ensures [Member(i, fields[i].key)] in Places(Object(fields), depth)
  {
    SensitiveMeans(fields[i].key);
    assert RedactFields(fields, depth)[i] == RedactField(fields[i], depth);
    MemberIsNoted(fields, i, depth);
  }

  /** A leaf under a key with none of the words is written as it is, and is not noted. */
  lemma FieldWithoutAWord(fields: seq<Field>, i: nat, depth: nat)
    requires i < |fields| && fields[i].value.Primitive?
    requires forall k | 0 <= k < |REDACTED_KEYS| :: !HasWord(fields[i].key, REDACTED_KEYS[k])
    ensures var written := Redact(Object(fields), depth);
            written.Object? && |written.fields| == |fields| && written.fields[i] == fields[i]
    ensures [Member(i, fields[i].key)] !in Places(Object(fields), depth)
  {
    SensitiveMeans(fields[i].key);
    LeafIsKept(fields, i, depth);
    MemberIsNoted(fields, i, depth);
  }

  lemma LeafIsKept(fields: seq<Field>, i: nat, depth: nat)
    requires i < |fields| && fields[i].value.Primitive? && !Sensitive(fields[i].key)
    ensures Redact(Object(fields), depth).Object? && |Redact(Object(fields), depth).fields| == |fields|
    ensures Redact(Object(fields), depth).fields[i] == fields[i]
  {
    if depth <= MAX_DEPTH {
      assert Redact(Object(fields), depth) == Object(RedactFields(fields, depth));
      assert RedactFields(fields, depth)[i] == RedactField(fields[i], depth);
      assert Redact(fields[i].value, depth + 1) == fields[i].value;
    }
  }

  // ---------- Paths ----------

  /** A member's path is its parent's, a dot, and its key; at the top, the key alone. An item's is its parent's and its index. */
  lemma {:induction false} PathOfStep(path: string, place: Place, step: Step)
    ensures Render(path, place + [step]) ==
            var parent := Render(path, place);
            match step
            case Index(i) => parent + "[" + PaymentReference.Decimal(i) + "]"
            case Member(_, key) => if parent == "" then key else parent + "." + key
    decreases place
  {
    if place == [] {
      assert (place + [step])[1..] == [];
    } else {
      assert (place + [step])[1..] == place[1..] + [step];
      PathOfStep(Extend(path, place[0]), place[1..], step);
    }
  }

  /** A header with a capital is marked, and listed under its own name. */
  lemma AuthorizationIsMarked(secret: string)
    ensures Redact(Object([Field("Authorization", Primitive(secret))]), 0) == Object([Field("Authorization", Primitive("[REDACTADO]"))])
  {
    var fields := [Field("Authorization", Primitive(secret))];
    AuthorizationHasItsWord();
    FieldWithAWord(fields, 0, 0, 0);
    assert Redact(Object(fields), 0).fields == [Field("Authorization", Primitive("[REDACTADO]"))];
  }

  lemma AuthorizationHasItsWord()
    ensures HasWord("Authorization", REDACTED_KEYS[0])
  {
    assert REDACTED_KEYS[0] == "authorization";
    assert "Authorization"[0..0 + 13] == "Authorization";
    assert SpelledAt("Authorization", "authorization", 0);
  }
}
