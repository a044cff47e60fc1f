/** internal/sopsage, from the outside: the token as text, exactly which files decrypt to what, and which are refused. */
module Tamper {
  import opened Basics
  import opened Sopsage
  import opened Text

  // ---- the token as text --------------------------------------------------------------------------------------------

  lemma {:induction false} GreedySound(s: string, delims: seq<string>)
    requires Greedy(s, delims).Some?
    ensures var fields := Greedy(s, delims).value; |fields| == |delims| + 1 && Written(fields, delims) == s
    decreases |delims|, |s| + 1
  {
    if delims != [] {
      GreedyFromSound(s, delims, |s|);
    }
  }

  lemma {:induction false} GreedyFromSound(s: string, delims: seq<string>, i: nat)
    requires delims != [] && i <= |s| && GreedyFrom(s, delims, i).Some?
    ensures var fields := GreedyFrom(s, delims, i).value; |fields| == |delims| + 1 && Written(fields, delims) == s
    decreases |delims|, i
  {
    if FitsAt(s, delims, i) {
      var rest := s[i + |delims[0]|..];
      GreedySound(rest, delims[1..]);
      var fields := [s[..i]] + Greedy(rest, delims[1..]).value;
      assert fields[1..] == Greedy(rest, delims[1..]).value;
      assert s == s[..i] + delims[0] + rest;
    } else {
      GreedyFromSound(s, delims, i - 1);
    }
  }

  // An encrypted scalar as it stands in the file.
  function Shown(data: string, iv: string, tag: string, typ: string): string {
    "ENC[AES256_GCM,data:" + data + ",iv:" + iv + ",tag:" + tag + ",type:" + typ + "]"
  }

  lemma TokenShown(data: string, iv: string, tag: string, typ: string)
    ensures Token(data, iv, tag, typ) == Shown(data, iv, tag, typ)
  {
    WrittenOut(data, iv, tag, typ);
    var head := "ENC[AES256_GCM,data:";
    assert head + (data + ",iv:" + (iv + ",tag:" + (tag + ",type:" + typ))) + "]"
        == head + data + ",iv:" + iv + ",tag:" + tag + ",type:" + typ + "]";
  }

  /** What encrypting writes: the sealed text without its last 16 bytes, the nonce and those bytes, each in base64, and the
      type. */
  lemma EncryptWrites(c: Crypto, plain: string, typ: string, key: string, aad: string, nonce: string)
    requires Lawful(c) && |nonce| == 32
    ensures var sealed := c.seal(key, nonce, plain, aad);
            EncryptScalar(c, plain, typ, key, aad, nonce) ==
            Shown(c.b64(sealed[..|plain|]), c.b64(nonce), c.b64(sealed[|plain|..]), typ)
  {
    var sealed := c.seal(key, nonce, plain, aad);
    assert |sealed| == |plain| + 16;
    TokenShown(c.b64(sealed[..|plain|]), c.b64(nonce), c.b64(sealed[|plain|..]), typ);
  }

  /** What decrypts is such a token, with a nonce of 32 bytes and a tag of 16, and opens under the key and the additional
      data to what is returned. */
  lemma DecryptReads(c: Crypto, enc: string, key: string, aad: string) returns (data: string, iv: string, tag: string)
    requires DecryptScalar(c, enc, key, aad).Some?
    ensures var r := DecryptScalar(c, enc, key, aad).value;
            && enc == Shown(data, iv, tag, r.typ)
            && c.unb64(data).Some? && c.unb64(iv).Some? && c.unb64(tag).Some?
            && |c.unb64(iv).value| == 32 && |c.unb64(tag).value| == 16
            && c.unseal(key, c.unb64(iv).value, c.unb64(data).value + c.unb64(tag).value, aad) == Some(r.plain)
  {
    var m := MatchEnc(enc).value;
    data, iv, tag := m[0], m[1], m[2];
    GreedySound(enc[|ENC_OPEN|..|enc| - 1], DELIMITERS);
    assert m == [data, iv, tag, m[3]];
    assert enc == ENC_OPEN + enc[|ENC_OPEN|..|enc| - 1] + "]";
    TokenShown(data, iv, tag, m[3]);
  }

  // ---- which files decrypt, and to what --------------------------------------------------------------------------------

  ghost predicate GivesAt(c: Crypto, ids: seq<string>, st: Stanza, key: string, i: int) {
    0 <= i < |ids| && c.unwrap(ids[i], st.enc) == Some(key) && forall j | 0 <= j < i :: c.unwrap(ids[j], st.enc).None?
  }

  /** The first identity that opens this stanza gives the key. */
  ghost predicate Gives(c: Crypto, ids: seq<string>, st: Stanza, key: string) {
    exists i :: GivesAt(c, ids, st, key, i)
  }

  // It gives no key of 32 bytes.
  ghost predicate Barren(c: Crypto, ids: seq<string>, st: Stanza) {
    forall k :: Gives(c, ids, st, k) ==> |k| != 32
  }

  ghost predicate FirstAt(c: Crypto, ids: seq<string>, stanzas: seq<Stanza>, key: string, s: int) {
    0 <= s < |stanzas| && Gives(c, ids, stanzas[s], key) && forall t | 0 <= t < s :: Barren(c, ids, stanzas[t])
  }

  /** The first stanza that gives a key of 32 bytes gives this one. */
  ghost predicate FirstKey(c: Crypto, ids: seq<string>, stanzas: seq<Stanza>, key: string) {
    |key| == 32 && exists s :: FirstAt(c, ids, stanzas, key, s)
  }

  lemma {:induction false} UnwrapGives(c: Crypto, ids: seq<string>, st: Stanza, key: string)
    ensures Unwrap(c, ids, st) == Some(key) <==> Gives(c, ids, st, key)
  {
    if ids != [] {
      UnwrapGives(c, ids[1..], st, key);
      if c.unwrap(ids[0], st.enc).None? {
        if i :| GivesAt(c, ids[1..], st, key, i) {
          GivesShifts(c, ids, st, key, i);
        }
        if i :| GivesAt(c, ids, st, key, i) {
          GivesShifts(c, ids, st, key, i - 1);
        }
      } else {
        assert Unwrap(c, ids, st) == Some(key) ==> GivesAt(c, ids, st, key, 0);
      }
    }
  }

  lemma GivesShifts(c: Crypto, ids: seq<string>, st: Stanza, key: string, i: int)
    requires ids != [] && c.unwrap(ids[0], st.enc).None?
    ensures GivesAt(c, ids[1..], st, key, i) <==> GivesAt(c, ids, st, key, i + 1)
  {
    if GivesAt(c, ids[1..], st, key, i) {
      forall j | 0 <= j < i + 1 ensures c.unwrap(ids[j], st.enc).None? {
        assert j == 0 || ids[j] == ids[1..][j - 1];
      }
    }
    if GivesAt(c, ids, st, key, i + 1) {
      forall j | 0 <= j < i ensures c.unwrap(ids[1..][j], st.enc).None? {
        assert ids[1..][j] == ids[j + 1];
      }
    }
  }

  lemma {:induction false} RecoversFirst(c: Crypto, ids: seq<string>, stanzas: seq<Stanza>, key: string)
    ensures RecoverDataKey(c, ids, stanzas) == Some(key) <==> FirstKey(c, ids, stanzas, key)
    decreases |stanzas|
  {
    if stanzas != [] {
      RecoversFirst(c, ids, stanzas[1..], key);
      var first := Unwrap(c, ids, stanzas[0]);
      forall k ensures first == Some(k) <==> Gives(c, ids, stanzas[0], k) {
        UnwrapGives(c, ids, stanzas[0], k);
      }
      if first.Some? && |first.value| == 32 {
        HeadGives(c, ids, stanzas, first.value, key);
      } else {
        HeadFails(c, ids, stanzas, key);
      }
    }
  }

  lemma HeadGives(c: Crypto, ids: seq<string>, stanzas: seq<Stanza>, first: string, key: string)
    requires stanzas != [] && Gives(c, ids, stanzas[0], first) && |first| == 32
    requires forall k :: Gives(c, ids, stanzas[0], k) ==> k == first
    ensures FirstKey(c, ids, stanzas, key) <==> key == first
  {
    assert !Barren(c, ids, stanzas[0]);
    assert FirstAt(c, ids, stanzas, first, 0);
  }

  lemma HeadFails(c: Crypto, ids: seq<string>, stanzas: seq<Stanza>, key: string)
    requires stanzas != [] && Barren(c, ids, stanzas[0])
    ensures FirstKey(c, ids, stanzas, key) <==> FirstKey(c, ids, stanzas[1..], key)
  {
    if |key| == 32 {
      if s :| FirstAt(c, ids, stanzas[1..], key, s) {
        FirstShifts(c, ids, stanzas, key, s);
        assert FirstAt(c, ids, stanzas, key, s + 1);
      }
      if s :| FirstAt(c, ids, stanzas, key, s) {
        FirstShifts(c, ids, stanzas, key, s - 1);
        assert FirstAt(c, ids, stanzas[1..], key, s - 1);
      }
    }
  }

  lemma FirstShifts(c: Crypto, ids: seq<string>, stanzas: seq<Stanza>, key: string, s: int)
    requires stanzas != [] && Barren(c, ids, stanzas[0]) && (|key| == 32)
    ensures FirstAt(c, ids, stanzas[1..], key, s) <==> FirstAt(c, ids, stanzas, key, s + 1)
  {
    if FirstAt(c, ids, stanzas[1..], key, s) {
      forall t | 0 <= t < s + 1 ensures Barren(c, ids, stanzas[t]) {
        if t > 0 {
          assert stanzas[1..][t - 1] == stanzas[t];
        }
      }
    }
    if FirstAt(c, ids, stanzas, key, s + 1) {
      assert s >= 0;
      forall t | 0 <= t < s ensures Barren(c, ids, stanzas[1..][t]) {
        assert stanzas[1..][t] == stanzas[t + 1];
      }
    }
  }

  /** An entry says this text: it is empty, in plain, or a token bound to its key. */
  ghost predicate Says(c: Crypto, key: string, p: Pair, text: string) {
    || (p.enc == "" && text == "")
    || exists typ :: DecryptScalar(c, p.enc, key, p.key + ":") == Some(Scalar(text, typ))
  }

  ghost predicate AllSay(c: Crypto, key: string, pairs: seq<Pair>, texts: seq<string>) {
    |texts| == |pairs| && forall i | 0 <= i < |pairs| :: Says(c, key, pairs[i], texts[i])
  }

  lemma ValueSays(c: Crypto, key: string, p: Pair, text: string)
    ensures DecryptValue(c, p, key) == Some(text) <==> Says(c, key, p, text)
  {
    if DecryptScalar(c, p.enc, key, p.key + ":").Some? {
      var s := DecryptScalar(c, p.enc, key, p.key + ":").value;
      assert s == Scalar(s.plain, s.typ);
    }
    EmptyIsNoToken();
  }

  function Texts(values: seq<KV>): seq<string> {
    seq(|values|, i requires 0 <= i < |values| => values[i].value)
  }

  lemma {:induction false} ConcatTexts(values: seq<KV>)
    ensures Sopsage.Concat(values) == Text.Concat(Texts(values))
  {
    if values != [] {
      ConcatTexts(values[1..]);
      assert Texts(values)[1..] == Texts(values[1..]);
    }
  }

  lemma {:induction false} PairsSay(c: Crypto, key: string, pairs: seq<Pair>, texts: seq<string>)
    ensures AllSay(c, key, pairs, texts) <==>
            DecryptPairs(c, pairs, key).Some? && Texts(DecryptPairs(c, pairs, key).value) == texts
    decreases |pairs|
  {
    if pairs == [] {
      assert Texts([]) == [];
    } else if texts != [] {
      PairsSay(c, key, pairs[1..], texts[1..]);
      ValueSays(c, key, pairs[0], texts[0]);
      if DecryptPairs(c, pairs, key).Some? {
        var values := DecryptPairs(c, pairs, key).value;
        assert values[1..] == DecryptPairs(c, pairs[1..], key).value && Texts(values)[1..] == Texts(values[1..]);
        assert Texts(values)[0] == DecryptValue(c, pairs[0], key).value;
        assert texts == [texts[0]] + texts[1..] && Texts(values) == [Texts(values)[0]] + Texts(values)[1..];
      }
      AllSayCons(c, key, pairs, texts);
    } else if DecryptPairs(c, pairs, key).Some? {
      assert |Texts(DecryptPairs(c, pairs, key).value)| > 0;
    }
  }

  lemma AllSayCons(c: Crypto, key: string, pairs: seq<Pair>, texts: seq<string>)
    requires pairs != [] && texts != []
    ensures AllSay(c, key, pairs, texts) <==> Says(c, key, pairs[0], texts[0]) && AllSay(c, key, pairs[1..], texts[1..])
  {
    if Says(c, key, pairs[0], texts[0]) && AllSay(c, key, pairs[1..], texts[1..]) {
      forall i | 0 <= i < |pairs| ensures Says(c, key, pairs[i], texts[i]) {
        if i > 0 {
          assert pairs[1..][i - 1] == pairs[i] && texts[1..][i - 1] == texts[i];
        }
      }
    }
    if AllSay(c, key, pairs, texts) {
      forall i | 0 <= i < |pairs[1..]| ensures Says(c, key, pairs[1..][i], texts[1..][i]) {
        assert pairs[1..][i] == pairs[i + 1] && texts[1..][i] == texts[i + 1];
      }
    }
  }

  lemma {:induction false} PairsKeep(c: Crypto, key: string, pairs: seq<Pair>)
    requires DecryptPairs(c, pairs, key).Some?
    ensures var values := DecryptPairs(c, pairs, key).value;
            |values| == |pairs| && forall i | 0 <= i < |pairs| :: values[i].key == pairs[i].key
    decreases |pairs|
  {
    if pairs != [] {
      PairsKeep(c, key, pairs[1..]);
      forall i | 0 < i < |pairs| ensures DecryptPairs(c, pairs, key).value[i].key == pairs[i].key {
        assert pairs[1..][i - 1] == pairs[i];
      }
    }
  }

  /** The stored MAC is this digest, sealed for this time stamp. */
  ghost predicate MacIs(c: Crypto, key: string, meta: Meta, digest: string) {
    exists typ :: DecryptScalar(c, meta.mac, key, meta.lastModified) == Some(Scalar(digest, typ))
  }

  // Everything a file has to satisfy, with its key and its texts.
  ghost predicate Opens(c: Crypto, ids: seq<string>, parsed: Parsed, key: string, texts: seq<string>) {
    && !parsed.meta.macOnlyEncrypted && FirstKey(c, ids, parsed.meta.age, key) && AllSay(c, key, parsed.pairs, texts)
    && MacIs(c, key, parsed.meta, c.digest(Text.Concat(texts)))
  }

  // The map from the keys to the texts.
  ghost predicate Tells(pairs: seq<Pair>, texts: seq<string>, m: map<string, string>) {
    && |texts| == |pairs| && (forall i | 0 <= i < |pairs| :: pairs[i].key in m && m[pairs[i].key] == texts[i])
    && (forall k | k in m :: exists i | 0 <= i < |pairs| :: pairs[i].key == k)
  }

  lemma MacAgrees(c: Crypto, key: string, meta: Meta, values: seq<KV>)
    ensures MacVerifies(c, meta, key, values) <==> MacIs(c, key, meta, c.digest(Text.Concat(Texts(values))))
  {
    ConcatTexts(values);
    if DecryptScalar(c, meta.mac, key, meta.lastModified).Some? {
      var s := DecryptScalar(c, meta.mac, key, meta.lastModified).value;
      assert s == Scalar(s.plain, s.typ);
    }
  }

  /** A file decrypts exactly when it parses, is not MAC-only, an identity opens one of its stanzas to a key of 32 bytes,
      every entry says some text under the first such key, and its MAC is the digest of those texts joined in order;
      and then to the map of exactly those texts. */
  lemma DecryptMeaning(c: Crypto, ids: seq<string>, file: File)
    ensures DecryptSpec(c, ids, file).Some? <==>
              Parse(file).Some? && exists key, texts :: Opens(c, ids, Parse(file).value, key, texts)
    ensures forall key, texts :: Parse(file).Some? && Opens(c, ids, Parse(file).value, key, texts) ==>
              DecryptSpec(c, ids, file).Some? && Tells(Parse(file).value.pairs, texts, DecryptSpec(c, ids, file).value)
  {
    if Parse(file).Some? {
      var parsed := Parse(file).value;
      forall key, texts | Opens(c, ids, parsed, key, texts)
        ensures DecryptSpec(c, ids, file).Some? && Tells(parsed.pairs, texts, DecryptSpec(c, ids, file).value)
      {
        OpensDecrypts(c, ids, file, key, texts);
      }
      if DecryptSpec(c, ids, file).Some? {
        var key, texts := DecryptOpens(c, ids, file);
      }
    }
  }

  lemma OpensDecrypts(c: Crypto, ids: seq<string>, file: File, key: string, texts: seq<string>)
    requires Parse(file).Some? && Opens(c, ids, Parse(file).value, key, texts)
    ensures DecryptSpec(c, ids, file).Some? && Tells(Parse(file).value.pairs, texts, DecryptSpec(c, ids, file).value)
  {
    var parsed := Parse(file).value;
    RecoversFirst(c, ids, parsed.meta.age, key);
    PairsSay(c, key, parsed.pairs, texts);
    var values := DecryptPairs(c, parsed.pairs, key).value;
    MacAgrees(c, key, parsed.meta, values);
    DecryptAssembled(c, ids, file, parsed, key, values);
    PairsKeep(c, key, parsed.pairs);
    TellsMap(parsed.pairs, values, texts);
  }

  lemma TellsMap(pairs: seq<Pair>, values: seq<KV>, texts: seq<string>)
    requires DistinctKeys(pairs) && |values| == |pairs| && texts == Texts(values)
    requires forall i | 0 <= i < |pairs| :: values[i].key == pairs[i].key
    ensures Tells(pairs, texts, ToMap(values))
  {
    ToMapHolds(values);
  }

  lemma DecryptOpens(c: Crypto, ids: seq<string>, file: File) returns (key: string, texts: seq<string>)
    requires DecryptSpec(c, ids, file).Some?
    ensures Opens(c, ids, Parse(file).value, key, texts)
  {
    var parsed := Parse(file).value;
    key := RecoverDataKey(c, ids, parsed.meta.age).value;
    RecoversFirst(c, ids, parsed.meta.age, key);
    var values := DecryptPairs(c, parsed.pairs, key).value;
    texts := Texts(values);
    PairsSay(c, key, parsed.pairs, texts);
    MacAgrees(c, key, parsed.meta, values);
  }

  // ---- tampering -------------------------------------------------------------------------------------------------------

  lemma FirstKeyUnique(c: Crypto, ids: seq<string>, stanzas: seq<Stanza>, key: string, key': string)
    requires FirstKey(c, ids, stanzas, key) && FirstKey(c, ids, stanzas, key')
    ensures key == key'
  {
    RecoversFirst(c, ids, stanzas, key);
    RecoversFirst(c, ids, stanzas, key');
  }

  lemma TextsUnique(c: Crypto, key: string, pairs: seq<Pair>, texts: seq<string>, texts': seq<string>)
    requires AllSay(c, key, pairs, texts) && AllSay(c, key, pairs, texts')
    ensures texts == texts'
  {
    PairsSay(c, key, pairs, texts);
    PairsSay(c, key, pairs, texts');
  }

  /** Tampering with the entries: behind the metadata of an encryption of `values`, any entries that open to any texts are
      accepted exactly when these texts, joined in file order, have the digest of the values joined in theirs. */
  lemma EntriesReplaced(c: Crypto, ids: seq<string>, recipients: seq<string>, values: seq<KV>, lastModified: string,
                        key: string, nonces: nat -> string, file: File, pairs: seq<Pair>, texts: seq<string>)
    requires Lawful(c) && |key| == 32 && GoodNonces(nonces) && HoldsOne(c, ids, recipients) && CanSeal(c, recipients)
    requires Parse(file) == Some(Parsed(pairs, SealedMeta(c, recipients, values, lastModified, key, nonces)))
    requires AllSay(c, key, pairs, texts)
    ensures DecryptSpec(c, ids, file).Some? <==> c.digest(Text.Concat(texts)) == c.digest(Text.Concat(Texts(values)))
  {
    var meta := SealedMeta(c, recipients, values, lastModified, key, nonces);
    MetaOpens(c, ids, recipients, values, lastModified, key, nonces);
    RecoversFirst(c, ids, meta.age, key);
    MacAgrees(c, key, meta, values);
    DecryptMeaning(c, ids, file);
    if DecryptSpec(c, ids, file).Some? {
      var key', texts' := DecryptOpens(c, ids, file);
      FirstKeyUnique(c, ids, meta.age, key, key');
      TextsUnique(c, key, pairs, texts, texts');
    } else {
      assert !Opens(c, ids, Parsed(pairs, meta), key, texts);
    }
  }

  /** In particular deleting, repeating or reordering entries of the encrypted file: what stands at each place is the entry
      at place `from(i)`.  Accepted exactly when the texts joined in the new order have the same digest. */
  lemma EntriesMoved(c: Crypto, ids: seq<string>, recipients: seq<string>, values: seq<KV>, lastModified: string,
                     key: string, nonces: nat -> string, file: File, pairs: seq<Pair>, from: seq<nat>)
    requires Lawful(c) && |key| == 32 && GoodNonces(nonces) && HoldsOne(c, ids, recipients) && CanSeal(c, recipients)
    requires Parse(file) == Some(Parsed(pairs, SealedMeta(c, recipients, values, lastModified, key, nonces)))
    requires |from| == |pairs| && forall i | 0 <= i < |from| :: from[i] < |values|
    requires forall i | 0 <= i < |from| :: pairs[i] == EncryptPairs(c, values, key, nonces)[from[i]]
    ensures DecryptSpec(c, ids, file).Some? <==>
              c.digest(Text.Concat(Picked(values, from))) == c.digest(Text.Concat(Texts(values)))
  {
    forall i | 0 <= i < |pairs| ensures Says(c, key, pairs[i], Picked(values, from)[i]) {
      PairRoundTrip(c, values[from[i]], key, nonces(from[i]));
      ValueSays(c, key, pairs[i], values[from[i]].value);
    }
    EntriesReplaced(c, ids, recipients, values, lastModified, key, nonces, file, pairs, Picked(values, from));
  }

  function Picked(values: seq<KV>, from: seq<nat>): seq<string>
    requires forall i | 0 <= i < |from| :: from[i] < |values|
  {
    seq(|from|, i requires 0 <= i < |from| => values[from[i]].value)
  }

  lemma {:induction false} ConcatParts(a: seq<string>, b: seq<string>)
    ensures Text.Concat(a + b) == Text.Concat(a) + Text.Concat(b)
  {
    if a == [] {
      assert a + b == b;
    } else {
      assert (a + b)[1..] == a[1..] + b;
      ConcatParts(a[1..], b);
    }
  }

  // All places but one.
  function AllBut(n: nat, i: nat): seq<nat>
    requires i < n
  {
    seq(n - 1, j requires 0 <= j < n - 1 => if j < i then j else j + 1)
  }

  lemma ShorterWithout(values: seq<KV>, i: nat)
    requires i < |values| && values[i].value != ""
    ensures |Text.Concat(Picked(values, AllBut(|values|, i)))| < |Text.Concat(Texts(values))|
  {
    var all := Texts(values);
    assert Picked(values, AllBut(|values|, i)) == all[..i] + all[i + 1..];
    assert all == all[..i] + ([all[i]] + all[i + 1..]);
    ConcatParts(all[..i], all[i + 1..]);
    ConcatParts(all[..i], [all[i]] + all[i + 1..]);
    ConcatParts([all[i]], all[i + 1..]);
    assert Text.Concat([all[i]]) == all[i] + Text.Concat([]);
  }

  /** With a digest that never collides, a file from which an entry that is not empty was deleted is always refused. */
  lemma DeletionRefused(c: Crypto, ids: seq<string>, recipients: seq<string>, values: seq<KV>, lastModified: string,
                        key: string, nonces: nat -> string, file: File, pairs: seq<Pair>, i: nat)
    requires Lawful(c) && |key| == 32 && GoodNonces(nonces) && HoldsOne(c, ids, recipients) && CanSeal(c, recipients)
    requires forall x, y | c.digest(x) == c.digest(y) :: x == y
    requires i < |values| && values[i].value != ""
    requires var all := EncryptPairs(c, values, key, nonces); pairs == all[..i] + all[i + 1..]
    requires Parse(file) == Some(Parsed(pairs, SealedMeta(c, recipients, values, lastModified, key, nonces)))
    ensures DecryptSpec(c, ids, file) == None
  {
    WithoutOne(EncryptPairs(c, values, key, nonces), pairs, i);
    EntriesMoved(c, ids, recipients, values, lastModified, key, nonces, file, pairs, AllBut(|values|, i));
    ShorterWithout(values, i);
  }

  lemma WithoutOne(all: seq<Pair>, pairs: seq<Pair>, i: nat)
    requires i < |all| && pairs == all[..i] + all[i + 1..]
    ensures |pairs| == |AllBut(|all|, i)| && forall j | 0 <= j < |pairs| :: pairs[j] == all[AllBut(|all|, i)[j]]
  {
  }

  /** A token under other additional data than it was written with opens exactly as far as the cipher lets its tag fit, and
      to what the cipher then gives. */
  lemma OtherData(c: Crypto, plain: string, typ: string, key: string, aad: string, other: string, nonce: string)
    requires Lawful(c) && |nonce| == 32 && Lacks(typ, ',') && Lacks(typ, '\n')
    ensures DecryptScalar(c, EncryptScalar(c, plain, typ, key, aad, nonce), key, other) ==
              match c.unseal(key, nonce, c.seal(key, nonce, plain, aad), other)
              case None => None
              case Some(text) => Some(Scalar(text, typ))
  {
    var sealed := c.seal(key, nonce, plain, aad);
    var data, tag := sealed[..|plain|], sealed[|plain|..];
    assert data + tag == sealed;
    EncryptWrites(c, plain, typ, key, aad, nonce);
    TokenShown(c.b64(data), c.b64(nonce), c.b64(tag), typ);
    MatchToken(c.b64(data), c.b64(nonce), c.b64(tag), typ);
  }

  /** What GCM promises besides: the tag of a sealed text does not fit other data. */
  ghost predicate Bound(c: Crypto, plain: string, key: string, aad: string, other: string, nonce: string) {
    c.unseal(key, nonce, c.seal(key, nonce, plain, aad), other) == None
  }

  /** So a value that is not empty, moved under another key, is refused, whatever else the file holds. */
  lemma MovedValueRefused(c: Crypto, ids: seq<string>, file: File, parsed: Parsed, kv: KV, key: string, nonce: string, i: nat)
    requires Lawful(c) && |nonce| == 32 && kv.value != "" && Parse(file) == Some(parsed) && i < |parsed.pairs|
    requires FirstKey(c, ids, parsed.meta.age, key) && parsed.pairs[i].enc == EncryptPair(c, kv, key, nonce).enc
    requires Bound(c, kv.value, key, kv.key + ":", parsed.pairs[i].key + ":", nonce)
    ensures DecryptSpec(c, ids, file) == None
  {
    var p := parsed.pairs[i];
    OtherData(c, kv.value, "str", key, kv.key + ":", p.key + ":", nonce);
    EncryptWrites(c, kv.value, "str", key, kv.key + ":", nonce);
    assert p.enc != "";
    DecryptMeaning(c, ids, file);
    forall key', texts ensures !Opens(c, ids, parsed, key', texts) {
      if FirstKey(c, ids, parsed.meta.age, key') {
        FirstKeyUnique(c, ids, parsed.meta.age, key, key');
        NotAllSay(c, key, parsed.pairs, texts, i);
      }
    }
  }

  lemma NotAllSay(c: Crypto, key: string, pairs: seq<Pair>, texts: seq<string>, i: nat)
    requires i < |pairs| && forall text :: !Says(c, key, pairs[i], text)
    ensures !AllSay(c, key, pairs, texts)
  {
    if |texts| == |pairs| {
      assert !Says(c, key, pairs[i], texts[i]);
    }
  }

  /** And a file whose time stamp was changed is refused. */
  lemma RolledBackRefused(c: Crypto, ids: seq<string>, file: File, parsed: Parsed, digest: string, lastModified: string,
                          key: string, nonce: string)
    requires Lawful(c) && |nonce| == 32 && Parse(file) == Some(parsed) && FirstKey(c, ids, parsed.meta.age, key)
    requires parsed.meta.mac == EncryptScalar(c, digest, "str", key, lastModified, nonce)
    requires Bound(c, digest, key, lastModified, parsed.meta.lastModified, nonce)
    ensures DecryptSpec(c, ids, file) == None
  {
    OtherData(c, digest, "str", key, lastModified, parsed.meta.lastModified, nonce);
    DecryptMeaning(c, ids, file);
    forall key', texts ensures !Opens(c, ids, parsed, key', texts) {
      if FirstKey(c, ids, parsed.meta.age, key') {
        FirstKeyUnique(c, ids, parsed.meta.age, key, key');
      }
    }
  }

  // ---- what a file may be, and what encrypting refuses -------------------------------------------------------------------

  /** Encrypting fails exactly without a recipient, or with one that cannot be sealed to. */
  lemma EncryptRefuses(c: Crypto, recipients: seq<string>, values: seq<KV>, lastModified: string, key: string, nonces: nat -> string)
    ensures EncryptSpec(c, recipients, values, lastModified, key, nonces) == None <==>
              recipients == [] || exists r | r in recipients :: !c.isRecipient(r)
  {
  }

  /** An encrypted file is its entries in the given order and then the metadata: each value that is not empty sealed for
      its key, an empty one in plain; a stanza per recipient; the digest of the joined values sealed for the time stamp. */
  lemma EncryptShape(c: Crypto, recipients: seq<string>, values: seq<KV>, lastModified: string, key: string, nonces: nat -> string)
    requires EncryptSpec(c, recipients, values, lastModified, key, nonces).Some?
    ensures var file := EncryptSpec(c, recipients, values, lastModified, key, nonces).value;
            && |file| == |values| + 1 && file[|values|].key == "sops" && file[|values|].node.Block?
            && (forall i | 0 <= i < |values| ::
                  && file[i].key == values[i].key && file[i].node.Text?
                  && file[i].node.text == if values[i].value == "" then ""
                                          else EncryptScalar(c, values[i].value, "str", key, values[i].key + ":", nonces(i)))
            && (var b := file[|values|].node;
                && b.lastModified == Some(lastModified) && b.macOnlyEncrypted == None
                && b.mac == Some(EncryptScalar(c, c.digest(Text.Concat(Texts(values))), "str", key, lastModified, nonces(|values|)))
                && b.age.Some? && |b.age.value| == |recipients|
                && forall r | 0 <= r < |recipients| :: b.age.value[r] == Stanza(c.wrap(recipients[r], key), recipients[r]))
  {
    ConcatTexts(values);
    var pairs, meta := EncryptPairs(c, values, key, nonces), SealedMeta(c, recipients, values, lastModified, key, nonces);
    EmitShape(pairs, meta);
    forall i | 0 <= i < |values| ensures pairs[i] == EncryptPair(c, values[i], key, nonces(i)) {
    }
    MetaShape(c, recipients, values, lastModified, key, nonces);
  }

  lemma EmitShape(pairs: seq<Pair>, meta: Meta)
    ensures var file := Emit(pairs, meta);
            && |file| == |pairs| + 1
            && (forall i | 0 <= i < |pairs| :: file[i] == Entry(pairs[i].key, Node.Text(pairs[i].enc)))
            && file[|pairs|].key == "sops" && file[|pairs|].node.Block?
            && (var b := file[|pairs|].node;
                && b.age == Some(meta.age) && b.lastModified == Some(meta.lastModified) && b.mac == Some(meta.mac)
                && b.macOnlyEncrypted == if meta.macOnlyEncrypted then Some(true) else None)
  {
  }

  lemma MetaShape(c: Crypto, recipients: seq<string>, values: seq<KV>, lastModified: string, key: string, nonces: nat -> string)
    ensures var meta := SealedMeta(c, recipients, values, lastModified, key, nonces);
            && meta.lastModified == lastModified && !meta.macOnlyEncrypted
            && meta.mac == EncryptScalar(c, c.digest(Sopsage.Concat(values)), "str", key, lastModified, nonces(|values|))
            && |meta.age| == |recipients|
            && forall r | 0 <= r < |recipients| :: meta.age[r] == Stanza(c.wrap(recipients[r], key), recipients[r])
  {
  }

  // What a node has written as its text; the other kinds have none.
  predicate NodeSays(n: Node, text: string) {
    match n
    case Text(t) => text == t
    case Null(t) => text == t
    case _ => text == ""
  }

  // These places hold the data entries, in order.
  ghost predicate DataAt(file: File, places: seq<nat>, pairs: seq<Pair>) {
    && |places| == |pairs| && (forall i, j | 0 <= i < j < |places| :: places[i] < places[j])
    && (forall i | 0 <= i < |places| ::
          && places[i] < |file| && file[places[i]].key != "sops"
          && pairs[i].key == file[places[i]].key && NodeSays(file[places[i]].node, pairs[i].enc))
    && (forall n: nat | n < |file| && file[n].key != "sops" :: n in places)
  }

  lemma {:induction false} DataPlaces(file: File) returns (places: seq<nat>)
    ensures DataAt(file, places, DataPairs(file))
  {
    if file == [] {
      places := [];
    } else {
      var front, last := file[..|file| - 1], file[|file| - 1];
      places := DataPlaces(front);
      assert file == front + [last];
      DataSnoc(front, last);
      if last.key == SOPS {
        SopsSnoc(front, last, places);
      } else {
        PlaceSnoc(front, last, places);
        places := places + [|front|];
      }
    }
  }

  lemma {:induction false} SopsSnoc(front: File, last: Entry, places: seq<nat>)
    requires DataAt(front, places, DataPairs(front)) && last.key == "sops"
    ensures DataAt(front + [last], places, DataPairs(front))
  {
  }

  lemma {:induction false} PlaceSnoc(front: File, last: Entry, places: seq<nat>)
    requires DataAt(front, places, DataPairs(front)) && last.key != "sops"
    ensures DataAt(front + [last], places + [|front|], DataPairs(front) + [Pair(last.key, TextOf(last.node))])
  {
    var more := places + [|front|];
    forall n: nat | n < |front + [last]| && (front + [last])[n].key != "sops" ensures n in more {
      if n == |front| {
        assert more[|places|] == n;
      } else {
        var i :| 0 <= i < |places| && places[i] == n;
        assert more[i] == n;
      }
    }
  }

  lemma DataSnoc(file: File, last: Entry)
    ensures DataPairs(file + [last]) == DataPairs(file) + if last.key == SOPS then [] else [Pair(last.key, TextOf(last.node))]
  {
    DataPairsAppend(file, [last]);
    assert [last][1..] == [];
  }

  /** A file parses exactly when no data key stands twice, every sops entry is a block or null, and there is one. */
  lemma ParseMeaning(file: File)
    ensures Parse(file).Some? <==>
              && (forall i, j | 0 <= i < j < |file| && file[i].key != "sops" && file[j].key != "sops" :: file[i].key != file[j].key)
              && (forall i | 0 <= i < |file| && file[i].key == "sops" :: file[i].node.Block? || file[i].node.Null?)
              && (exists i | 0 <= i < |file| :: file[i].key == "sops")
    ensures Parse(file).Some? ==> exists places :: DataAt(file, places, Parse(file).value.pairs)
  {
    var places := DataPlaces(file);
    if BlocksDecode(file) {
      HasMeta(file, None);
    }
    DistinctByPlace(file, places);
  }

  lemma {:induction false} DistinctByPlace(file: File, places: seq<nat>)
    requires DataAt(file, places, DataPairs(file))
    ensures DistinctKeys(DataPairs(file)) <==>
              forall i, j | 0 <= i < j < |file| && file[i].key != "sops" && file[j].key != "sops" :: file[i].key != file[j].key
  {
    if DistinctKeys(DataPairs(file)) {
      forall i: nat, j: nat | i < j < |file| && file[i].key != "sops" && file[j].key != "sops" ensures file[i].key != file[j].key {
        var a :| 0 <= a < |places| && places[a] == i;
        var b :| 0 <= b < |places| && places[b] == j;
        assert a < b;
      }
    }
  }

  lemma {:induction false} HasMeta(file: File, from: Option<Meta>)
    requires BlocksDecode(file)
    ensures MetaOf(file, from).Some? <==> from.Some? || exists i | 0 <= i < |file| :: file[i].key == "sops"
    decreases |file|
  {
    if file != [] {
      HasMeta(file[1..], MetaAfter(file[0], from));
      assert forall i | 0 <= i < |file| :: i == 0 || file[i] == file[1..][i - 1];
    }
  }

  // ---- the metadata that counts ----------------------------------------------------------------------------------------

  // The last of the SOPS entries that gives a field decides it.
  ghost predicate LastGiven<T(!new)>(file: File, field: Node -> Option<T>, default: T, value: T) {
    || (value == default && forall i | 0 <= i < |file| && file[i].key == "sops" :: field(file[i].node).None?)
    || exists i :: Decides(file, field, i, value)
  }

  ghost predicate Decides<T(!new)>(file: File, field: Node -> Option<T>, i: int, value: T) {
    && 0 <= i < |file| && file[i].key == "sops" && field(file[i].node) == Some(value)
    && forall j | i < j < |file| && file[j].key == "sops" :: field(file[j].node).None?
  }

  lemma OneMoreEntry<T(!new)>(file: File, e: Entry, field: Node -> Option<T>, default: T, value: T)
    requires LastGiven(file, field, default, value)
    ensures LastGiven(file + [e], field, default, if e.key == "sops" then Or(field(e.node), value) else value)
  {
    var more := file + [e];
    if e.key == "sops" && field(e.node).Some? {
      assert Decides(more, field, |file|, field(e.node).value);
    } else if i :| Decides(file, field, i, value) {
      assert Decides(more, field, i, value);
    }
  }

  const AGE: Node -> Option<seq<Stanza>> := (n: Node) => if n.Block? then n.age else None
  const LAST_MODIFIED: Node -> Option<string> := (n: Node) => if n.Block? then n.lastModified else None
  const MAC: Node -> Option<string> := (n: Node) => if n.Block? then n.mac else None
  const MAC_ONLY: Node -> Option<bool> := (n: Node) => if n.Block? then n.macOnlyEncrypted else None

  /** Where a file has several SOPS entries each field is the last one given, and what none gives is empty. */
  ghost predicate Merged(file: File, meta: Meta) {
    && LastGiven(file, AGE, [], meta.age) && LastGiven(file, LAST_MODIFIED, "", meta.lastModified)
    && LastGiven(file, MAC, "", meta.mac) && LastGiven(file, MAC_ONLY, false, meta.macOnlyEncrypted)
  }

  lemma OneMoreMerged(file: File, e: Entry, meta: Meta)
    requires Merged(file, meta) && (e.key == "sops" ==> Decodes(e.node))
    ensures Merged(file + [e], if e.key == "sops" then Overlay(meta, e.node) else meta)
  {
    OneMoreEntry(file, e, AGE, [], meta.age);
    OneMoreEntry(file, e, LAST_MODIFIED, "", meta.lastModified);
    OneMoreEntry(file, e, MAC, "", meta.mac);
    OneMoreEntry(file, e, MAC_ONLY, false, meta.macOnlyEncrypted);
  }

  lemma {:induction false} MetaFrom(before: File, file: File, from: Option<Meta>)
    requires BlocksDecode(file) && Merged(before, Or(from, ZERO_META))
    ensures Merged(before + file, Or(MetaOf(file, from), ZERO_META))
    decreases |file|
  {
    if file == [] {
      assert before + file == before;
    } else {
      OneMoreMerged(before, file[0], Or(from, ZERO_META));
      MetaFrom(before + [file[0]], file[1..], MetaAfter(file[0], from));
      assert before + [file[0]] + file[1..] == before + file;
    }
  }

  lemma MetaMeaning(file: File)
    requires Parse(file).Some?
    ensures Merged(file, Parse(file).value.meta)
  {
    MetaFrom([], file, None);
    assert [] + file == file;
  }
}
