/** internal/sopsage: the SOPS v3 file codec over an abstract AEAD.  A string is a Go string: its bytes. */
module Sopsage {
  import opened Basics
  import opened Text
  import Reconcile

  const NONCE_SIZE: nat := 32
  const TAG_SIZE: nat := 16
  const KEY_SIZE: nat := 32

  /** The primitives, as functions: AES-GCM (key, nonce, text, additional data), base64, SHA-512 in hex, and
      age (an identity opens what was sealed to its recipient). */
  datatype Crypto = Crypto(seal: (string, string, string, string) -> string,
                           unseal: (string, string, string, string) -> Option<string>,
                           b64: string -> string,
                           unb64: string -> Option<string>,
                           digest: string -> string,
                           recipientOf: string -> string,
                           isRecipient: string -> bool,
                           wrap: (string, string) -> string,
                           unwrap: (string, string) -> Option<string>)

  /** What NIST SP 800-38D, section 4 of RFC 4648 and age promise. */
  ghost predicate Lawful(c: Crypto) {
    && (forall k, n, p, a :: |n| == NONCE_SIZE ==>
          |c.seal(k, n, p, a)| == |p| + TAG_SIZE && c.unseal(k, n, c.seal(k, n, p, a), a) == Some(p))
    && (forall s :: c.unb64(c.b64(s)) == Some(s) && Lacks(c.b64(s), ',') && Lacks(c.b64(s), '\n'))
    && (forall id, r, k :: c.isRecipient(r) ==> c.unwrap(id, c.wrap(r, k)) == if c.recipientOf(id) == r then Some(k) else None)
  }

  // ---- the ENC token and its greedy grammar --------------------------------------------------------------------

  const ENC_OPEN := "ENC[AES256_GCM,data:"
  const DELIMITERS := [",iv:", ",tag:", ",type:"]

  /** The fields a greedy (.*)d1(.*)d2(.*)... finds: the first field as long as can be, then the next. */
  function Greedy(s: string, delims: seq<string>): Option<seq<string>>
    decreases |delims|, |s| + 1
  {
    if delims == [] then Some([s]) else GreedyFrom(s, delims, |s|)
  }

  // The same, with the first delimiter at position i or before.
  function GreedyFrom(s: string, delims: seq<string>, i: nat): Option<seq<string>>
    requires delims != [] && i <= |s|
    decreases |delims|, i
  {
    var d := delims[0];
    var here := if i + |d| <= |s| && s[i..i + |d|] == d then Greedy(s[i + |d|..], delims[1..]) else None;
    if here.Some? then Some([s[..i]] + here.value)
    else if i > 0 then GreedyFrom(s, delims, i - 1)
    else None
  }

  function MatchEnc(s: string): Option<seq<string>> {
    if Lacks(s, '\n') && ENC_OPEN <= s && |s| > |ENC_OPEN| && EndsWith(s, ']')
    then Greedy(s[|ENC_OPEN|..|s| - 1], DELIMITERS)
    else None
  }

  function Written(fields: seq<string>, delims: seq<string>): string
    requires |fields| == |delims| + 1
    decreases |delims|
  {
    if delims == [] then fields[0] else fields[0] + delims[0] + Written(fields[1..], delims[1..])
  }

  function Commas(s: string): nat {
    if s == "" then 0 else (if s[0] == ',' then 1 else 0) + Commas(s[1..])
  }

  lemma {:induction false} CommasAppend(a: string, b: string)
    ensures Commas(a + b) == Commas(a) + Commas(b)
  {
    if a == "" {
      assert a + b == b;
    } else {
      assert (a + b)[1..] == a[1..] + b;
      CommasAppend(a[1..], b);
    }
  }

  lemma {:induction false} CommasLacking(s: string)
    ensures Commas(s) == 0 <==> Lacks(s, ',')
  {
    if s != "" {
      CommasLacking(s[1..]);
      if Lacks(s[1..], ',') && s[0] != ',' {
        assert forall i | 0 <= i < |s| :: i == 0 || s[i] == s[1..][i - 1];
      }
      if Lacks(s, ',') {
        assert forall i | 0 <= i < |s[1..]| :: s[1..][i] == s[i + 1];
      }
    }
  }

  // A delimiter is one comma and more.
  predicate IsDelimiter(d: string) {
    d != "" && d[0] == ',' && Lacks(d[1..], ',')
  }

  lemma DelimiterCommas(d: string)
    requires IsDelimiter(d)
    ensures Commas(d) == 1
  {
    CommasLacking(d[1..]);
  }

  lemma {:induction false} GreedyNeedsCommas(s: string, delims: seq<string>)
    requires forall i | 0 <= i < |delims| :: IsDelimiter(delims[i])
    requires Greedy(s, delims).Some?
    ensures Commas(s) >= |delims|
    decreases |delims|, |s| + 1
  {
    if delims != [] {
      GreedyFromNeedsCommas(s, delims, |s|);
    }
  }

  lemma {:induction false} GreedyFromNeedsCommas(s: string, delims: seq<string>, i: nat)
    requires forall k | 0 <= k < |delims| :: IsDelimiter(delims[k])
    requires delims != [] && i <= |s| && GreedyFrom(s, delims, i).Some?
    ensures Commas(s) >= |delims|
    decreases |delims|, i
  {
    if FitsAt(s, delims, i) {
      RestDelimiters(delims);
      GreedyNeedsCommas(s[i + |delims[0]|..], delims[1..]);
      CommasCut(s, i, delims[0]);
    } else {
      GreedyFromNeedsCommas(s, delims, i - 1);
    }
  }

  predicate FitsAt(s: string, delims: seq<string>, i: nat)
    requires delims != []
  {
    var d := delims[0];
    i + |d| <= |s| && s[i..i + |d|] == d && Greedy(s[i + |d|..], delims[1..]).Some?
  }

  lemma RestDelimiters(delims: seq<string>)
    requires delims != [] && forall k | 0 <= k < |delims| :: IsDelimiter(delims[k])
    ensures forall k | 0 <= k < |delims[1..]| :: IsDelimiter(delims[1..][k])
  {
  }

  lemma CommasCut(s: string, i: nat, d: string)
    requires IsDelimiter(d) && i + |d| <= |s| && s[i..i + |d|] == d
    ensures Commas(s) == Commas(s[..i]) + 1 + Commas(s[i + |d|..])
  {
    assert s == s[..i] + (d + s[i + |d|..]);
    CommasAppend(s[..i], d + s[i + |d|..]);
    CommasAppend(d, s[i + |d|..]);
    DelimiterCommas(d);
  }

  lemma {:induction false} WrittenCommas(fields: seq<string>, delims: seq<string>)
    requires |fields| == |delims| + 1
    requires (forall i | 0 <= i < |fields| :: Lacks(fields[i], ',')) && forall i | 0 <= i < |delims| :: IsDelimiter(delims[i])
    ensures Commas(Written(fields, delims)) == |delims|
    decreases |delims|
  {
    CommasLacking(fields[0]);
    if delims != [] {
      WrittenCommas(fields[1..], delims[1..]);
      CommasAppend(fields[0] + delims[0], Written(fields[1..], delims[1..]));
      CommasAppend(fields[0], delims[0]);
      DelimiterCommas(delims[0]);
    }
  }

  // Behind the first field, the greedy search finds no match.
  lemma {:induction false} GreedySkips(s: string, delims: seq<string>, first: nat, i: nat)
    requires delims != [] && forall k | 0 <= k < |delims| :: IsDelimiter(delims[k])
    requires Commas(s) == |delims| && first <= i <= |s| && first < |s| && s[first] == ','
    ensures GreedyFrom(s, delims, i) == GreedyFrom(s, delims, first)
    decreases i
  {
    if i > first {
      var d := delims[0];
      if i + |d| <= |s| && s[i..i + |d|] == d {
        CommasCut(s, i, d);
        CommasLacking(s[..i]);
        assert s[..i][first] == ',';
        if Greedy(s[i + |d|..], delims[1..]).Some? {
          GreedyNeedsCommas(s[i + |d|..], delims[1..]);
        }
      }
      GreedySkips(s, delims, first, i - 1);
    }
  }

  /** The greedy pattern splits a written token one way only: into the fields it was written from. */
  lemma {:induction false} GreedyInverts(fields: seq<string>, delims: seq<string>)
    requires |fields| == |delims| + 1
    requires (forall i | 0 <= i < |fields| :: Lacks(fields[i], ',')) && forall i | 0 <= i < |delims| :: IsDelimiter(delims[i])
    ensures Greedy(Written(fields, delims), delims) == Some(fields)
    decreases |delims|
  {
    var s := Written(fields, delims);
    if delims == [] {
      assert fields == [fields[0]];
    } else {
      var f, d, rest := fields[0], delims[0], Written(fields[1..], delims[1..]);
      WrittenCommas(fields, delims);
      assert s[|f|] == ',';
      GreedySkips(s, delims, |f|, |s|);
      assert s[|f|..|f| + |d|] == d && s[|f| + |d|..] == rest && s[..|f|] == f;
      GreedyInverts(fields[1..], delims[1..]);
      assert [f] + fields[1..] == fields;
    }
  }

  // ---- scalars -----------------------------------------------------------------------------------------------------

  function Token(data: string, iv: string, tag: string, typ: string): string {
    ENC_OPEN + Written([data, iv, tag, typ], DELIMITERS) + "]"
  }

  function EncryptScalar(c: Crypto, plain: string, typ: string, key: string, aad: string, nonce: string): string {
    var sealed := c.seal(key, nonce, plain, aad);
    var cut := if |sealed| >= TAG_SIZE then |sealed| - TAG_SIZE else 0;
    Token(c.b64(sealed[..cut]), c.b64(nonce), c.b64(sealed[cut..]), typ)
  }

  datatype Scalar = Scalar(plain: string, typ: string)

  function DecryptScalar(c: Crypto, enc: string, key: string, aad: string): Option<Scalar> {
    match MatchEnc(enc)
    case None => None
    case Some(m) =>
      if |m| != 4 then None
      else
        var data, iv, tag := c.unb64(m[0]), c.unb64(m[1]), c.unb64(m[2]);
        if data.None? || iv.None? || tag.None? then None
        else if |iv.value| != NONCE_SIZE || |tag.value| != TAG_SIZE then None
        else match c.unseal(key, iv.value, data.value + tag.value, aad)
          case None => None
          case Some(plain) => Some(Scalar(plain, m[3]))
  }

  lemma MatchToken(data: string, iv: string, tag: string, typ: string)
    requires Lacks(data, ',') && Lacks(iv, ',') && Lacks(tag, ',') && Lacks(typ, ',')
    requires Lacks(data, '\n') && Lacks(iv, '\n') && Lacks(tag, '\n') && Lacks(typ, '\n')
    ensures MatchEnc(Token(data, iv, tag, typ)) == Some([data, iv, tag, typ])
  {
    var fields, s := [data, iv, tag, typ], Token(data, iv, tag, typ);
    var middle := Written(fields, DELIMITERS);
    assert s[|ENC_OPEN|..|s| - 1] == middle;
    WrittenOut(data, iv, tag, typ);
    GreedyInverts(fields, DELIMITERS);
  }

  lemma WrittenOut(data: string, iv: string, tag: string, typ: string)
    ensures Written([data, iv, tag, typ], DELIMITERS) == data + ",iv:" + (iv + ",tag:" + (tag + ",type:" + typ))
  {
    assert [data, iv, tag, typ][1..] == [iv, tag, typ] && [iv, tag, typ][1..] == [tag, typ] && [tag, typ][1..] == [typ];
    assert DELIMITERS[1..] == [",tag:", ",type:"] && [",tag:", ",type:"][1..] == [",type:"] && [",type:"][1..] == [];
    assert Written([typ], []) == typ;
    assert Written([tag, typ], [",type:"]) == tag + ",type:" + typ;
    assert Written([iv, tag, typ], [",tag:", ",type:"]) == iv + ",tag:" + (tag + ",type:" + typ);
  }

  /** A scalar decrypts to what was encrypted: the token splits back, and tag and ciphertext rejoin. */
  lemma ScalarRoundTrip(c: Crypto, plain: string, typ: string, key: string, aad: string, nonce: string)
    requires Lawful(c) && |nonce| == NONCE_SIZE && Lacks(typ, ',') && Lacks(typ, '\n')
    ensures DecryptScalar(c, EncryptScalar(c, plain, typ, key, aad, nonce), key, aad) == Some(Scalar(plain, typ))
    ensures MatchEnc(EncryptScalar(c, plain, typ, key, aad, nonce)).Some?
  {
    var sealed := c.seal(key, nonce, plain, aad);
    var data, tag := sealed[..|sealed| - TAG_SIZE], sealed[|sealed| - TAG_SIZE..];
    assert data + tag == sealed;
    MatchToken(c.b64(data), c.b64(nonce), c.b64(tag), typ);
  }

  // ---- files ---------------------------------------------------------------------------------------------------------

  datatype Stanza = Stanza(enc: string, recipient: string)

  datatype Meta = Meta(age: seq<Stanza>, lastModified: string, mac: string, macOnlyEncrypted: bool)

  /** A YAML value under a top-level key: a scalar, a null, a mapping of the metadata fields it gives, or anything
      else.  A node that is not a scalar has no text. */
  datatype Node = Text(text: string) | Null(text: string) | Other
                | Block(age: Option<seq<Stanza>>, lastModified: Option<string>, mac: Option<string>, macOnlyEncrypted: Option<bool>)

  datatype Entry = Entry(key: string, node: Node)

  /** The document's root mapping, in file order; YAML itself is not modelled. */
  type File = seq<Entry>

  datatype Pair = Pair(key: string, enc: string)

  datatype Parsed = Parsed(pairs: seq<Pair>, meta: Meta)

  const SOPS := "sops"

  function TextOf(n: Node): string {
    if n.Text? || n.Null? then n.text else ""
  }

  function DataPairs(file: File): seq<Pair> {
    if file == [] then []
    else (if file[0].key == SOPS then [] else [Pair(file[0].key, TextOf(file[0].node))]) + DataPairs(file[1..])
  }

  const ZERO_META := Meta([], "", "", false)

  function Or<T>(given: Option<T>, default: T): T {
    if given.Some? then given.value else default
  }

  // Decoding onto what is there already: a block overlays the fields it gives, a null leaves all as it is.
  function Overlay(m: Meta, n: Node): Meta {
    if n.Block?
    then Meta(Or(n.age, m.age), Or(n.lastModified, m.lastModified), Or(n.mac, m.mac), Or(n.macOnlyEncrypted, m.macOnlyEncrypted))
    else m
  }

  predicate Decodes(n: Node) {
    n.Block? || n.Null?
  }

  // The metadata after one entry; `from` is what the earlier ones gave.
  function MetaAfter(e: Entry, from: Option<Meta>): Option<Meta> {
    if e.key == SOPS && Decodes(e.node) then Some(Overlay(Or(from, ZERO_META), e.node)) else from
  }

  // All the sops entries, each decoded onto the ones before.
  function MetaOf(file: File, from: Option<Meta>): Option<Meta>
    decreases |file|
  {
    if file == [] then from else MetaOf(file[1..], MetaAfter(file[0], from))
  }

  // A sops entry that is neither a block nor null does not decode.
  predicate BlocksDecode(file: File) {
    forall i | 0 <= i < |file| :: file[i].key == SOPS ==> Decodes(file[i].node)
  }

  predicate DistinctKeys(pairs: seq<Pair>) {
    forall i, j | 0 <= i < j < |pairs| :: pairs[i].key != pairs[j].key
  }

  function Parse(file: File): Option<Parsed> {
    if BlocksDecode(file) && DistinctKeys(DataPairs(file)) && MetaOf(file, None).Some?
    then Some(Parsed(DataPairs(file), MetaOf(file, None).value))
    else None
  }

  ghost predicate SeenKeys(seen: set<string>, pairs: seq<Pair>) {
    forall k :: k in seen <==> exists j | 0 <= j < |pairs| :: pairs[j].key == k
  }

  lemma SeenGrows(seen: set<string>, pairs: seq<Pair>, p: Pair)
    requires SeenKeys(seen, pairs)
    ensures SeenKeys(seen + {p.key}, pairs + [p])
  {
    var more := pairs + [p];
    forall k ensures k in seen + {p.key} <==> exists j | 0 <= j < |more| :: more[j].key == k {
      if k == p.key {
        assert more[|pairs|].key == k;
      } else if k in seen {
        var j :| 0 <= j < |pairs| && pairs[j].key == k;
        assert more[j].key == k;
      }
    }
  }

  function PairOf(e: Entry): seq<Pair> {
    if e.key == SOPS then [] else [Pair(e.key, TextOf(e.node))]
  }

  lemma MetaStep(e: Entry, rest: File, from: Option<Meta>)
    ensures MetaOf([e] + rest, from) == MetaOf(rest, MetaAfter(e, from))
  {
    assert ([e] + rest)[1..] == rest;
  }

  lemma PairStep(e: Entry, rest: File)
    ensures DataPairs([e] + rest) == PairOf(e) + DataPairs(rest)
  {
    assert ([e] + rest)[1..] == rest;
  }

  lemma BlockStep(front: File, e: Entry)
    ensures BlocksDecode(front + [e]) <==> BlocksDecode(front) && (e.key == SOPS ==> Decodes(e.node))
  {
    assert (front + [e])[|front|] == e;
    forall i | 0 <= i < |front| ensures (front + [e])[i] == front[i] {
    }
    if BlocksDecode(front + [e]) {
      forall i | 0 <= i < |front| ensures front[i].key == SOPS ==> Decodes(front[i].node) {
        assert (front + [e])[i] == front[i];
      }
    }
  }

  // One entry, seen from both sides.
  lemma EntryStep(file: File, i: nat, from: Option<Meta>)
    requires i < |file|
    ensures DataPairs(file[i..]) == PairOf(file[i]) + DataPairs(file[i + 1..])
    ensures MetaOf(file[i..], from) == MetaOf(file[i + 1..], MetaAfter(file[i], from))
    ensures BlocksDecode(file[..i + 1]) <==> BlocksDecode(file[..i]) && (file[i].key == SOPS ==> Decodes(file[i].node))
  {
    assert file[i..] == [file[i]] + file[i + 1..];
    assert file[..i + 1] == file[..i] + [file[i]];
    PairStep(file[i], file[i + 1..]);
    MetaStep(file[i], file[i + 1..], from);
    BlockStep(file[..i], file[i]);
  }

  method ParseFile(file: File) returns (r: Option<Parsed>)
    ensures r == Parse(file)
  {
    var pairs, meta, seen := [], None, {};
    assert file[0..] == file;
    for i := 0 to |file|
      invariant DataPairs(file) == pairs + DataPairs(file[i..])
      invariant MetaOf(file, None) == MetaOf(file[i..], meta)
      invariant BlocksDecode(file[..i]) && DistinctKeys(pairs)
      invariant SeenKeys(seen, pairs)
    {
      EntryStep(file, i, meta);
      var e := file[i];
      if e.key == SOPS {
        if !Decodes(e.node) {
          assert !BlocksDecode(file);
          return None;
        }
        meta := Some(Overlay(Or(meta, ZERO_META), e.node));
      } else {
        var p := Pair(e.key, TextOf(e.node));
        Regroup(pairs, p, DataPairs(file[i + 1..]));
        if e.key in seen {
          RepeatedKey(pairs, p, DataPairs(file[i + 1..]));
          return None;
        }
        SeenGrows(seen, pairs, p);
        pairs, seen := pairs + [p], seen + {e.key};
      }
    }
    assert file[|file|..] == [] && file[..|file|] == file;
    assert pairs + [] == pairs;
    if meta.None? {
      return None;
    }
    return Some(Parsed(pairs, meta.value));
  }

  lemma Regroup(pairs: seq<Pair>, p: Pair, rest: seq<Pair>)
    ensures pairs + ([p] + rest) == (pairs + [p]) + rest
  {
  }

  lemma RepeatedKey(pairs: seq<Pair>, p: Pair, rest: seq<Pair>)
    requires exists j | 0 <= j < |pairs| :: pairs[j].key == p.key
    ensures !DistinctKeys(pairs + [p] + rest)
  {
    var all := pairs + [p] + rest;
    var j :| 0 <= j < |pairs| && pairs[j].key == p.key;
    assert all[j] == pairs[j] && all[|pairs|] == p;
  }

  function Entries(pairs: seq<Pair>): File {
    seq(|pairs|, i requires 0 <= i < |pairs| => Entry(pairs[i].key, Text(pairs[i].enc)))
  }

  // The whole block; mac_only_encrypted is left out when false.
  function FullBlock(meta: Meta): Node {
    Block(Some(meta.age), Some(meta.lastModified), Some(meta.mac), if meta.macOnlyEncrypted then Some(true) else None)
  }

  function Emit(pairs: seq<Pair>, meta: Meta): File {
    Entries(pairs) + [Entry(SOPS, FullBlock(meta))]
  }

  lemma {:induction false} DataPairsAppend(a: File, b: File)
    ensures DataPairs(a + b) == DataPairs(a) + DataPairs(b)
  {
    if a == [] {
      assert a + b == b;
    } else {
      assert (a + b)[1..] == a[1..] + b;
      DataPairsAppend(a[1..], b);
    }
  }

  lemma {:induction false} MetaAppend(a: File, b: File, from: Option<Meta>)
    ensures MetaOf(a + b, from) == MetaOf(b, MetaOf(a, from))
    decreases |a|
  {
    if a == [] {
      assert a + b == b;
    } else {
      assert (a + b)[1..] == a[1..] + b;
      MetaAppend(a[1..], b, MetaAfter(a[0], from));
    }
  }

  lemma {:induction false} EntriesParse(pairs: seq<Pair>, from: Option<Meta>)
    requires forall i | 0 <= i < |pairs| :: pairs[i].key != SOPS
    ensures DataPairs(Entries(pairs)) == pairs && MetaOf(Entries(pairs), from) == from
    decreases |pairs|
  {
    if pairs != [] {
      assert Entries(pairs)[1..] == Entries(pairs[1..]);
      EntriesParse(pairs[1..], from);
      assert [pairs[0]] + pairs[1..] == pairs;
    }
  }

  /** Print and parse cancel, for distinct data keys none of which is `sops`. */
  lemma ParseEmit(pairs: seq<Pair>, meta: Meta)
    requires DistinctKeys(pairs) && forall i | 0 <= i < |pairs| :: pairs[i].key != SOPS
    ensures Parse(Emit(pairs, meta)) == Some(Parsed(pairs, meta))
  {
    var last := [Entry(SOPS, FullBlock(meta))];
    DataPairsAppend(Entries(pairs), last);
    MetaAppend(Entries(pairs), last, None);
    EntriesParse(pairs, None);
    assert last[1..] == [];
    assert pairs + [] == pairs;
  }

  // ---- Encrypt ---------------------------------------------------------------------------------------------------------

  datatype KV = KV(key: string, value: string)

  function Concat(values: seq<KV>): string {
    if values == [] then "" else values[0].value + Concat(values[1..])
  }

  // computeMAC: the digest of every value in file order
  function Mac(c: Crypto, values: seq<KV>): string {
    c.digest(Concat(values))
  }

  function EncryptPair(c: Crypto, kv: KV, key: string, nonce: string): Pair {
    Pair(kv.key, if kv.value == "" then "" else EncryptScalar(c, kv.value, "str", key, kv.key + ":", nonce))
  }

  function EncryptPairs(c: Crypto, values: seq<KV>, key: string, nonces: nat -> string): seq<Pair> {
    seq(|values|, i requires 0 <= i < |values| => EncryptPair(c, values[i], key, nonces(i)))
  }

  function Stanzas(c: Crypto, recipients: seq<string>, key: string): seq<Stanza> {
    seq(|recipients|, i requires 0 <= i < |recipients| => Stanza(c.wrap(recipients[i], key), recipients[i]))
  }

  function SealedMeta(c: Crypto, recipients: seq<string>, values: seq<KV>, lastModified: string,
                      key: string, nonces: nat -> string): Meta
  {
    Meta(Stanzas(c, recipients, key), lastModified,
         EncryptScalar(c, Mac(c, values), "str", key, lastModified, nonces(|values|)), false)
  }

  // There is a recipient, and age can seal to each.
  predicate CanSeal(c: Crypto, recipients: seq<string>) {
    recipients != [] && forall i | 0 <= i < |recipients| :: c.isRecipient(recipients[i])
  }

  // `key` and `nonces` are the random draws of this call.
  function EncryptSpec(c: Crypto, recipients: seq<string>, values: seq<KV>, lastModified: string,
                       key: string, nonces: nat -> string): Option<File>
  {
    if !CanSeal(c, recipients) then None
    else
      Some(Emit(EncryptPairs(c, values, key, nonces), SealedMeta(c, recipients, values, lastModified, key, nonces)))
  }

  lemma StanzasGrow(c: Crypto, recipients: seq<string>, key: string, i: nat)
    requires i < |recipients|
    ensures Stanzas(c, recipients[..i + 1], key)
         == Stanzas(c, recipients[..i], key) + [Stanza(c.wrap(recipients[i], key), recipients[i])]
  {
  }

  lemma {:induction false} ConcatAppend(a: seq<KV>, b: seq<KV>)
    ensures Concat(a + b) == Concat(a) + Concat(b)
  {
    if a == [] {
      assert a + b == b;
    } else {
      assert (a + b)[1..] == a[1..] + b;
      ConcatAppend(a[1..], b);
    }
  }

  lemma PairAt(c: Crypto, values: seq<KV>, key: string, nonces: nat -> string, j: nat)
    requires j < |values|
    ensures EncryptPairs(c, values, key, nonces)[j] == EncryptPair(c, values[j], key, nonces(j))
  {
  }

  lemma OnePairMore(a: seq<Pair>, b: seq<Pair>, p: Pair)
    requires |b| == |a| + 1 && b[|a|] == p && forall j | 0 <= j < |a| :: b[j] == a[j]
    ensures b == a + [p]
  {
  }

  lemma PairsAppend(c: Crypto, front: seq<KV>, kv: KV, key: string, nonces: nat -> string)
    ensures EncryptPairs(c, front + [kv], key, nonces)
         == EncryptPairs(c, front, key, nonces) + [EncryptPair(c, kv, key, nonces(|front|))]
  {
    var a, b := EncryptPairs(c, front, key, nonces), EncryptPairs(c, front + [kv], key, nonces);
    PairAt(c, front + [kv], key, nonces, |front|);
    forall j | 0 <= j < |a| ensures b[j] == a[j] {
      PairAt(c, front, key, nonces, j);
      PairAt(c, front + [kv], key, nonces, j);
    }
    OnePairMore(a, b, EncryptPair(c, kv, key, nonces(|front|)));
  }

  lemma PairsGrow(c: Crypto, values: seq<KV>, key: string, nonces: nat -> string, i: nat)
    requires i < |values|
    ensures EncryptPairs(c, values[..i + 1], key, nonces)
         == EncryptPairs(c, values[..i], key, nonces) + [EncryptPair(c, values[i], key, nonces(i))]
    ensures Concat(values[..i + 1]) == Concat(values[..i]) + values[i].value
  {
    assert values[..i + 1] == values[..i] + [values[i]];
    PairsAppend(c, values[..i], values[i], key, nonces);
    ConcatSnoc(values[..i], values[i]);
  }

  // What the pieces make, once every recipient has its stanza.
  lemma EmitsSpec(c: Crypto, recipients: seq<string>, values: seq<KV>, lastModified: string, key: string, nonces: nat -> string,
                  mac: string)
    requires CanSeal(c, recipients)
    requires mac == EncryptScalar(c, c.digest(Concat(values)), "str", key, lastModified, nonces(|values|))
    ensures EncryptSpec(c, recipients, values, lastModified, key, nonces)
         == Some(Emit(EncryptPairs(c, values, key, nonces), Meta(Stanzas(c, recipients, key), lastModified, mac, false)))
  {
  }

  method WrapAll(c: Crypto, recipients: seq<string>, key: string) returns (stanzas: Option<seq<Stanza>>)
    ensures stanzas == if CanSeal(c, recipients) then Some(Stanzas(c, recipients, key)) else None
  {
    if recipients == [] {
      return None;
    }
    var out := [];
    for i := 0 to |recipients|
      invariant out == Stanzas(c, recipients[..i], key)
      invariant forall j | 0 <= j < i :: c.isRecipient(recipients[j])
    {
      if !c.isRecipient(recipients[i]) {
        return None;
      }
      StanzasGrow(c, recipients, key, i);
      out := out + [Stanza(c.wrap(recipients[i], key), recipients[i])];
    }
    assert recipients[..|recipients|] == recipients;
    return Some(out);
  }

  method Encrypt(c: Crypto, recipients: seq<string>, values: seq<KV>, lastModified: string,
                 key: string, nonces: nat -> string) returns (file: Option<File>)
    ensures file == EncryptSpec(c, recipients, values, lastModified, key, nonces)
  {
    var stanzas := WrapAll(c, recipients, key);
    if stanzas.None? {
      return None;
    }
    var pairs, plain := [], "";
    for i := 0 to |values|
      invariant pairs == EncryptPairs(c, values[..i], key, nonces)
      invariant plain == Concat(values[..i])
    {
      var kv := values[i];
      PairsGrow(c, values, key, nonces, i);
      plain := plain + kv.value;
      if kv.value == "" {
        pairs := pairs + [Pair(kv.key, "")];
      } else {
        pairs := pairs + [Pair(kv.key, EncryptScalar(c, kv.value, "str", key, kv.key + ":", nonces(i)))];
      }
    }
    assert values[..|values|] == values;
    var mac := EncryptScalar(c, c.digest(plain), "str", key, lastModified, nonces(|values|));
    EmitsSpec(c, recipients, values, lastModified, key, nonces, mac);
    file := Some(Emit(pairs, Meta(stanzas.value, lastModified, mac, false)));
  }

  // ---- Decrypt ---------------------------------------------------------------------------------------------------------

  // The first identity that opens the stanza.
  function Unwrap(c: Crypto, ids: seq<string>, st: Stanza): Option<string> {
    if ids == [] then None
    else if c.unwrap(ids[0], st.enc).Some? then c.unwrap(ids[0], st.enc)
    else Unwrap(c, ids[1..], st)
  }

  function RecoverDataKey(c: Crypto, ids: seq<string>, stanzas: seq<Stanza>): Option<string>
    decreases |stanzas|
  {
    if stanzas == [] then None
    else
      var key := Unwrap(c, ids, stanzas[0]);
      if key.Some? && |key.value| == KEY_SIZE then key else RecoverDataKey(c, ids, stanzas[1..])
  }

  // One entry's plaintext: empty stays plain, other plaintext is refused.
  function DecryptValue(c: Crypto, p: Pair, key: string): Option<string> {
    if MatchEnc(p.enc).None? then if p.enc == "" then Some("") else None
    else match DecryptScalar(c, p.enc, key, p.key + ":")
      case None => None
      case Some(s) => Some(s.plain)
  }

  function DecryptPairs(c: Crypto, pairs: seq<Pair>, key: string): Option<seq<KV>>
    decreases |pairs|
  {
    if pairs == [] then Some([])
    else
      var first, rest := DecryptValue(c, pairs[0], key), DecryptPairs(c, pairs[1..], key);
      if first.None? || rest.None? then None else Some([KV(pairs[0].key, first.value)] + rest.value)
  }

  function ToMap(values: seq<KV>): map<string, string> {
    if values == [] then map[] else ToMap(values[..|values| - 1])[values[|values| - 1].key := values[|values| - 1].value]
  }

  predicate MacVerifies(c: Crypto, meta: Meta, key: string, values: seq<KV>) {
    var stored := DecryptScalar(c, meta.mac, key, meta.lastModified);
    stored.Some? && stored.value.plain == Mac(c, values)
  }

  function DecryptParsed(c: Crypto, ids: seq<string>, parsed: Parsed): Option<seq<KV>> {
    if parsed.meta.macOnlyEncrypted then None
    else match RecoverDataKey(c, ids, parsed.meta.age)
      case None => None
      case Some(key) =>
        match DecryptPairs(c, parsed.pairs, key)
        case None => None
        case Some(values) => if MacVerifies(c, parsed.meta, key, values) then Some(values) else None
  }

  function DecryptSpec(c: Crypto, ids: seq<string>, file: File): Option<map<string, string>> {
    match Parse(file)
    case None => None
    case Some(parsed) =>
      match DecryptParsed(c, ids, parsed)
      case None => None
      case Some(values) => Some(ToMap(values))
  }

  method DecryptAll(c: Crypto, pairs: seq<Pair>, key: string)
    returns (ok: bool, ghost values: seq<KV>, out: map<string, string>, plain: string)
    ensures ok <==> DecryptPairs(c, pairs, key).Some?
    ensures ok ==> DecryptPairs(c, pairs, key) == Some(values) && out == ToMap(values) && plain == Concat(values)
  {
    values, out, plain := [], map[], "";
    NothingYet(DecryptPairs(c, pairs, key));
    assert pairs[0..] == pairs;
    for i := 0 to |pairs|
      invariant out == ToMap(values) && plain == Concat(values)
      invariant DecryptPairs(c, pairs, key) == Behind(values, DecryptPairs(c, pairs[i..], key))
    {
      var p := pairs[i];
      assert pairs[i..][1..] == pairs[i + 1..];
      var value := DecryptValue(c, p, key);
      if value.None? {
        return false, values, out, plain;
      }
      var kv := KV(p.key, value.value);
      ConcatSnoc(values, kv);
      assert (values + [kv])[..|values|] == values;
      BehindSnoc(values, kv, DecryptPairs(c, pairs[i + 1..], key));
      out, plain, values := out[kv.key := kv.value], plain + kv.value, values + [kv];
    }
    assert pairs[|pairs|..] == [] && values + [] == values;
    ok := true;
  }

  // The values decrypted so far in front of what the rest gives.
  function Behind(values: seq<KV>, rest: Option<seq<KV>>): Option<seq<KV>> {
    if rest.Some? then Some(values + rest.value) else None
  }

  lemma NothingYet(rest: Option<seq<KV>>)
    ensures Behind([], rest) == rest
  {
    if rest.Some? {
      assert [] + rest.value == rest.value;
    }
  }

  lemma BehindSnoc(values: seq<KV>, kv: KV, rest: Option<seq<KV>>)
    ensures Behind(values + [kv], rest) == Behind(values, if rest.Some? then Some([kv] + rest.value) else None)
  {
    if rest.Some? {
      assert values + ([kv] + rest.value) == (values + [kv]) + rest.value;
    }
  }

  method Decrypt(c: Crypto, ids: seq<string>, file: File) returns (out: Option<map<string, string>>)
    ensures out == DecryptSpec(c, ids, file)
  {
    var parsed := ParseFile(file);
    if parsed.None? || parsed.value.meta.macOnlyEncrypted {
      return None;
    }
    var meta := parsed.value.meta;
    var dataKey := RecoverDataKey(c, ids, meta.age);
    if dataKey.None? {
      return None;
    }
    var ok, values, m, plain := DecryptAll(c, parsed.value.pairs, dataKey.value);
    if !ok {
      return None;
    }
    var stored := DecryptScalar(c, meta.mac, dataKey.value, meta.lastModified);
    if stored.None? || stored.value.plain != c.digest(plain) {
      return None;
    }
    return Some(m);
  }

  lemma {:induction false} ConcatSnoc(values: seq<KV>, kv: KV)
    ensures Concat(values + [kv]) == Concat(values) + kv.value
  {
    if values == [] {
      assert [kv][1..] == [];
      assert [] + [kv] == [kv];
    } else {
      assert (values + [kv])[1..] == values[1..] + [kv];
      ConcatSnoc(values[1..], kv);
    }
  }

  // ---- the round trip ------------------------------------------------------------------------------------------------------

  lemma {:induction false} UnwrapWrapped(c: Crypto, ids: seq<string>, r: string, key: string)
    requires Lawful(c) && c.isRecipient(r)
    ensures Unwrap(c, ids, Stanza(c.wrap(r, key), r)) ==
            if exists i | 0 <= i < |ids| :: c.recipientOf(ids[i]) == r then Some(key) else None
  {
    if ids != [] {
      UnwrapWrapped(c, ids[1..], r, key);
      if c.recipientOf(ids[0]) != r {
        if i :| 0 <= i < |ids| && c.recipientOf(ids[i]) == r {
          assert ids[1..][i - 1] == ids[i];
        }
      }
    }
  }

  // Some identity belongs to some recipient.
  predicate HoldsOne(c: Crypto, ids: seq<string>, recipients: seq<string>) {
    exists i, r | 0 <= i < |ids| && 0 <= r < |recipients| :: c.recipientOf(ids[i]) == recipients[r]
  }

  lemma {:induction false} RecoverWrapped(c: Crypto, ids: seq<string>, recipients: seq<string>, key: string)
    requires Lawful(c) && |key| == KEY_SIZE
    requires HoldsOne(c, ids, recipients) && CanSeal(c, recipients)
    ensures RecoverDataKey(c, ids, Stanzas(c, recipients, key)) == Some(key)
    decreases |recipients|
  {
    var i, r :| 0 <= i < |ids| && 0 <= r < |recipients| && c.recipientOf(ids[i]) == recipients[r];
    UnwrapWrapped(c, ids, recipients[0], key);
    assert Stanzas(c, recipients, key)[1..] == Stanzas(c, recipients[1..], key);
    if !(exists k | 0 <= k < |ids| :: c.recipientOf(ids[k]) == recipients[0]) {
      assert recipients[1..][r - 1] == recipients[r];
      RecoverWrapped(c, ids, recipients[1..], key);
    }
  }

  ghost predicate GoodNonces(nonces: nat -> string) {
    forall i: nat :: |nonces(i)| == NONCE_SIZE
  }

  lemma PairRoundTrip(c: Crypto, kv: KV, key: string, nonce: string)
    requires Lawful(c) && |nonce| == NONCE_SIZE
    ensures DecryptValue(c, EncryptPair(c, kv, key, nonce), key) == Some(kv.value)
  {
    if kv.value != "" {
      ScalarRoundTrip(c, kv.value, "str", key, kv.key + ":", nonce);
    }
  }

  // One pair more.
  lemma DecryptFirst(c: Crypto, pairs: seq<Pair>, key: string, values: seq<KV>)
    requires pairs != [] && values != [] && pairs[0].key == values[0].key
    requires DecryptValue(c, pairs[0], key) == Some(values[0].value) && DecryptPairs(c, pairs[1..], key) == Some(values[1..])
    ensures DecryptPairs(c, pairs, key) == Some(values)
  {
    assert [values[0]] + values[1..] == values;
  }

  function Later(nonces: nat -> string): nat -> string {
    (i: nat) => nonces(i + 1)
  }

  lemma LaterGood(nonces: nat -> string)
    requires GoodNonces(nonces)
    ensures GoodNonces(Later(nonces)) && |nonces(0)| == NONCE_SIZE
  {
  }

  lemma EncryptRest(c: Crypto, values: seq<KV>, key: string, nonces: nat -> string)
    requires values != []
    ensures EncryptPairs(c, values, key, nonces)[0] == EncryptPair(c, values[0], key, nonces(0))
    ensures EncryptPairs(c, values, key, nonces)[1..] == EncryptPairs(c, values[1..], key, Later(nonces))
  {
    var rest, whole := EncryptPairs(c, values[1..], key, Later(nonces)), EncryptPairs(c, values, key, nonces);
    forall i | 0 <= i < |rest| ensures rest[i] == whole[i + 1] {
      assert values[1..][i] == values[i + 1] && Later(nonces)(i) == nonces(i + 1);
    }
    assert whole[1..] == rest;
  }

  lemma {:induction false} PairsRoundTrip(c: Crypto, values: seq<KV>, key: string, nonces: nat -> string)
    requires Lawful(c) && GoodNonces(nonces)
    ensures DecryptPairs(c, EncryptPairs(c, values, key, nonces), key) == Some(values)
    decreases |values|
  {
    if values != [] {
      LaterGood(nonces);
      EncryptRest(c, values, key, nonces);
      PairRoundTrip(c, values[0], key, nonces(0));
      PairsRoundTrip(c, values[1..], key, Later(nonces));
      DecryptFirst(c, EncryptPairs(c, values, key, nonces), key, values);
    }
  }

  predicate DistinctValues(values: seq<KV>) {
    forall i, j | 0 <= i < j < |values| :: values[i].key != values[j].key
  }

  lemma PairKeys(c: Crypto, values: seq<KV>, key: string, nonces: nat -> string)
    requires DistinctValues(values) && forall i | 0 <= i < |values| :: values[i].key != SOPS
    ensures var pairs := EncryptPairs(c, values, key, nonces);
            DistinctKeys(pairs) && forall i | 0 <= i < |pairs| :: pairs[i].key != SOPS
  {
    var pairs := EncryptPairs(c, values, key, nonces);
    forall i | 0 <= i < |pairs| ensures pairs[i].key == values[i].key {
      assert pairs[i] == EncryptPair(c, values[i], key, nonces(i));
    }
  }

  // The stored MAC opens to the MAC recomputed in file order.
  lemma MacRoundTrip(c: Crypto, recipients: seq<string>, values: seq<KV>, lastModified: string, key: string, nonces: nat -> string)
    requires Lawful(c) && GoodNonces(nonces)
    ensures MacVerifies(c, SealedMeta(c, recipients, values, lastModified, key, nonces), key, values)
  {
    ScalarRoundTrip(c, Mac(c, values), "str", key, lastModified, nonces(|values|));
  }

  lemma DecryptAssembled(c: Crypto, ids: seq<string>, file: File, parsed: Parsed, key: string, values: seq<KV>)
    requires Parse(file) == Some(parsed) && !parsed.meta.macOnlyEncrypted
    requires RecoverDataKey(c, ids, parsed.meta.age) == Some(key) && DecryptPairs(c, parsed.pairs, key) == Some(values)
    requires MacVerifies(c, parsed.meta, key, values)
    ensures DecryptSpec(c, ids, file) == Some(ToMap(values))
  {
  }

  /** SOPS round trip: for any recipients age can seal to, any values under distinct keys none of which is `sops`, any data key
      and nonces, whoever holds an identity of one recipient decrypts exactly the map, empty values included. */
  lemma DecryptInvertsEncrypt(c: Crypto, ids: seq<string>, recipients: seq<string>, values: seq<KV>,
                              lastModified: string, key: string, nonces: nat -> string)
    requires Lawful(c) && |key| == KEY_SIZE && GoodNonces(nonces)
    requires DistinctValues(values) && forall i | 0 <= i < |values| :: values[i].key != SOPS
    requires HoldsOne(c, ids, recipients) && CanSeal(c, recipients)
    ensures var file := EncryptSpec(c, recipients, values, lastModified, key, nonces);
            file.Some? && DecryptSpec(c, ids, file.value).Some? && MapOf(values, DecryptSpec(c, ids, file.value).value)
  {
    var pairs, meta := EncryptPairs(c, values, key, nonces), SealedMeta(c, recipients, values, lastModified, key, nonces);
    PairKeys(c, values, key, nonces);
    ParseEmit(pairs, meta);
    MetaOpens(c, ids, recipients, values, lastModified, key, nonces);
    PairsRoundTrip(c, values, key, nonces);
    DecryptAssembled(c, ids, Emit(pairs, meta), Parsed(pairs, meta), key, values);
    ToMapHolds(values);
  }

  // The map has exactly these entries.
  ghost predicate MapOf(values: seq<KV>, m: map<string, string>) {
    && (forall i | 0 <= i < |values| :: values[i].key in m && m[values[i].key] == values[i].value)
    && (forall k | k in m :: exists i | 0 <= i < |values| :: values[i].key == k)
  }

  lemma MetaOpens(c: Crypto, ids: seq<string>, recipients: seq<string>, values: seq<KV>, lastModified: string,
                  key: string, nonces: nat -> string)
    requires Lawful(c) && |key| == KEY_SIZE && GoodNonces(nonces) && HoldsOne(c, ids, recipients) && CanSeal(c, recipients)
    ensures var meta := SealedMeta(c, recipients, values, lastModified, key, nonces);
            RecoverDataKey(c, ids, meta.age) == Some(key) && MacVerifies(c, meta, key, values) && !meta.macOnlyEncrypted
  {
    RecoverWrapped(c, ids, recipients, key);
    MacRoundTrip(c, recipients, values, lastModified, key, nonces);
  }

  lemma {:induction false} ToMapHolds(values: seq<KV>)
    requires DistinctValues(values)
    ensures MapOf(values, ToMap(values))
  {
    if values != [] {
      var front, last := values[..|values| - 1], values[|values| - 1];
      ToMapHolds(front);
      assert values == front + [last];
      MapGrows(front, last, ToMap(front));
    }
  }

  lemma MapGrows(front: seq<KV>, last: KV, m: map<string, string>)
    requires MapOf(front, m) && DistinctValues(front + [last])
    ensures MapOf(front + [last], m[last.key := last.value])
  {
    var all := front + [last];
    assert all[|front|] == last;
    forall i | 0 <= i < |front| ensures all[i] == front[i] && all[i].key != last.key {
      assert all[i].key != all[|front|].key;
    }
  }

  // ---- empty values are neutral ------------------------------------------------------------------------------------------------

  predicate IsEmptyEntry(e: Entry) {
    e.key != SOPS && TextOf(e.node) == ""
  }

  /** The file without its empty-valued data entries. */
  function DropEmpties(file: File): File {
    if file == [] then []
    else if IsEmptyEntry(file[0]) then DropEmpties(file[1..])
    else [file[0]] + DropEmpties(file[1..])
  }

  function NonEmptyPairs(pairs: seq<Pair>): seq<Pair> {
    if pairs == [] then []
    else if pairs[0].enc == "" then NonEmptyPairs(pairs[1..])
    else [pairs[0]] + NonEmptyPairs(pairs[1..])
  }

  lemma {:induction false} DropEmptiesParses(file: File, from: Option<Meta>)
    ensures DataPairs(DropEmpties(file)) == NonEmptyPairs(DataPairs(file))
    ensures MetaOf(DropEmpties(file), from) == MetaOf(file, from)
    ensures BlocksDecode(DropEmpties(file)) == BlocksDecode(file)
    decreases |file|
  {
    if file != [] {
      DropEmptiesParses(file[1..], MetaAfter(file[0], from));
      assert file == [file[0]] + file[1..];
      assert BlocksDecode(file) <==> (file[0].key == SOPS ==> Decodes(file[0].node)) && BlocksDecode(file[1..]);
      var kept := DropEmpties(file[1..]);
      if !IsEmptyEntry(file[0]) {
        BlocksDecodeCons(file[0], kept);
      }
      assert ([file[0]] + kept)[1..] == kept;
      assert [] + DataPairs(file[1..]) == DataPairs(file[1..]) && [] + DataPairs(kept) == DataPairs(kept);
      if file[0].key != SOPS {
        var p := Pair(file[0].key, TextOf(file[0].node));
        assert ([p] + DataPairs(file[1..]))[1..] == DataPairs(file[1..]);
      }
    }
  }

  lemma BlocksDecodeCons(e: Entry, file: File)
    ensures BlocksDecode([e] + file) <==> (e.key == SOPS ==> Decodes(e.node)) && BlocksDecode(file)
  {
    assert ([e] + file)[0] == e;
    assert forall i | 0 <= i < |file| :: ([e] + file)[i + 1] == file[i];
  }

  // The values of the entries whose text is not empty.
  function KeepWritten(pairs: seq<Pair>, values: seq<KV>): seq<KV>
    requires |pairs| == |values|
    decreases |pairs|
  {
    if pairs == [] then []
    else if pairs[0].enc == "" then KeepWritten(pairs[1..], values[1..])
    else [values[0]] + KeepWritten(pairs[1..], values[1..])
  }

  lemma {:induction false} DecryptKeepsShape(c: Crypto, pairs: seq<Pair>, key: string)
    requires DecryptPairs(c, pairs, key).Some?
    ensures var values := DecryptPairs(c, pairs, key).value;
            && |values| == |pairs|
            && forall i | 0 <= i < |pairs| :: values[i].key == pairs[i].key && (pairs[i].enc == "" ==> values[i].value == "")
    decreases |pairs|
  {
    if pairs != [] {
      DecryptKeepsShape(c, pairs[1..], key);
      EmptyIsNoToken();
    }
  }

  lemma EmptyIsNoToken()
    ensures MatchEnc("").None?
  {
  }

  // Empty entries neither stop decryption nor feed the MAC.
  lemma {:induction false} DecryptDropsEmpties(c: Crypto, pairs: seq<Pair>, key: string)
    ensures DecryptPairs(c, pairs, key).Some? <==> DecryptPairs(c, NonEmptyPairs(pairs), key).Some?
    ensures DecryptPairs(c, pairs, key).Some? ==>
              var values := DecryptPairs(c, pairs, key).value;
              && |values| == |pairs|
              && DecryptPairs(c, NonEmptyPairs(pairs), key) == Some(KeepWritten(pairs, values))
              && Concat(KeepWritten(pairs, values)) == Concat(values)
    decreases |pairs|
  {
    if pairs != [] {
      DecryptDropsEmpties(c, pairs[1..], key);
      EmptyIsNoToken();
      if pairs[0].enc != "" {
        var rest := NonEmptyPairs(pairs[1..]);
        assert ([pairs[0]] + rest)[1..] == rest;
      }
      if DecryptPairs(c, pairs, key).Some? {
        var values := DecryptPairs(c, pairs, key).value;
        assert values[1..] == DecryptPairs(c, pairs[1..], key).value;
        var kept := KeepWritten(pairs[1..], values[1..]);
        assert ([values[0]] + kept)[1..] == kept;
      }
    }
  }

  lemma {:induction false} WrittenSame(pairs: seq<Pair>, values: seq<KV>, k: string, v: string)
    requires |pairs| == |values|
    requires forall i | 0 <= i < |pairs| :: pairs[i].enc == "" ==> values[i].value == ""
    requires v != ""
    ensures KV(k, v) in KeepWritten(pairs, values) <==> KV(k, v) in values
    decreases |pairs|
  {
    if pairs != [] {
      WrittenSame(pairs[1..], values[1..], k, v);
      assert values == [values[0]] + values[1..];
    }
  }

  // The parsed files of equal non-empty parts decrypt alike.
  lemma ParsedNeutral(c: Crypto, ids: seq<string>, a: Parsed, b: Parsed)
    requires a.meta == b.meta && NonEmptyPairs(a.pairs) == NonEmptyPairs(b.pairs)
    ensures DecryptParsed(c, ids, a).Some? <==> DecryptParsed(c, ids, b).Some?
    ensures DecryptParsed(c, ids, a).Some? ==>
              forall k, v | v != "" :: KV(k, v) in DecryptParsed(c, ids, a).value <==> KV(k, v) in DecryptParsed(c, ids, b).value
  {
    var found := RecoverDataKey(c, ids, a.meta.age);
    if found.Some? {
      var key := found.value;
      DecryptDropsEmpties(c, a.pairs, key);
      DecryptDropsEmpties(c, b.pairs, key);
      if DecryptPairs(c, a.pairs, key).Some? {
        var va, vb := DecryptPairs(c, a.pairs, key).value, DecryptPairs(c, b.pairs, key).value;
        DecryptKeepsShape(c, a.pairs, key);
        DecryptKeepsShape(c, b.pairs, key);
        forall k, v | v != "" ensures KV(k, v) in va <==> KV(k, v) in vb {
          WrittenSame(a.pairs, va, k, v);
          WrittenSame(b.pairs, vb, k, v);
        }
      }
    }
  }

  lemma ToMapMembers(values: seq<KV>, k: string, v: string)
    requires DistinctValues(values)
    ensures k in ToMap(values) && ToMap(values)[k] == v <==> KV(k, v) in values
  {
    ToMapHolds(values);
    if k in ToMap(values) {
      var i :| 0 <= i < |values| && values[i].key == k;
      assert values[i] in values;
    }
  }

  predicate DistinctData(file: File) {
    DistinctKeys(DataPairs(file))
  }

  lemma OutputMembers(c: Crypto, ids: seq<string>, file: File, k: string, v: string)
    requires DecryptSpec(c, ids, file).Some?
    ensures var m := DecryptSpec(c, ids, file).value;
            k in m && m[k] == v <==> KV(k, v) in DecryptParsed(c, ids, Parse(file).value).value
  {
    var parsed := Parse(file).value;
    var values := DecryptParsed(c, ids, parsed).value;
    DecryptKeepsShape(c, parsed.pairs, RecoverDataKey(c, ids, parsed.meta.age).value);
    ToMapMembers(values, k, v);
  }

  function NonEmptyOnly(m: map<string, string>): map<string, string> {
    map k | k in m && m[k] != "" :: m[k]
  }

  // Without an allowlist a pass makes podman secrets of these.
  lemma AllButEmpty(m: map<string, string>)
    ensures Reconcile.ForCreate([], m) == Some(NonEmptyOnly(m))
  {
  }

  /** Empty values are neutral: two files with distinct keys that differ only in empty-valued entries, wherever
      they stand, are both accepted or both refused, with the same non-empty outputs. */
  lemma EmptyValuesAreNeutral(c: Crypto, ids: seq<string>, a: File, b: File)
    requires DropEmpties(a) == DropEmpties(b) && DistinctData(a) && DistinctData(b)
    ensures DecryptSpec(c, ids, a).Some? <==> DecryptSpec(c, ids, b).Some?
    ensures DecryptSpec(c, ids, a).Some? ==>
              var x, y := DecryptSpec(c, ids, a).value, DecryptSpec(c, ids, b).value;
              NonEmptyOnly(x) == NonEmptyOnly(y) && Reconcile.ForCreate([], x) == Reconcile.ForCreate([], y)
  {
    DropEmptiesParses(a, None);
    DropEmptiesParses(b, None);
    if Parse(a).Some? {
      var pa, pb := Parse(a).value, Parse(b).value;
      ParsedNeutral(c, ids, pa, pb);
      if DecryptSpec(c, ids, a).Some? {
        var x, y := DecryptSpec(c, ids, a).value, DecryptSpec(c, ids, b).value;
        forall k ensures k in NonEmptyOnly(x) ==> k in NonEmptyOnly(y) && x[k] == y[k]
                 ensures k in NonEmptyOnly(y) ==> k in NonEmptyOnly(x)
        {
          if k in x && x[k] != "" {
            OutputMembers(c, ids, a, k, x[k]);
            OutputMembers(c, ids, b, k, x[k]);
          }
          if k in y && y[k] != "" {
            OutputMembers(c, ids, a, k, y[k]);
            OutputMembers(c, ids, b, k, y[k]);
          }
        }
        AllButEmpty(x);
        AllButEmpty(y);
      }
    }
  }
}
