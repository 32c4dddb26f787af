/**
 * The string keys of submissions and order locks, and when they are faithful to the
 * (orderId, side, action) triples that the tracker's model is indexed by.
 */
module RelayKeys {
  import opened RelayRecords

  /** A truncated SHA-256: eight hexadecimal digits of some text derived from the order id. */
  ghost predicate EightDigits(digest: string -> string) {
    forall s :: |digest(s)| == 8
  }

  predicate Safe(c: char) {
    'A' <= c <= 'Z' || 'a' <= c <= 'z' || '0' <= c <= '9' || c == '.' || c == '_' || c == '-'
  }

  function Sanitised(s: string): (r: string)
    ensures |r| == |s| && forall i :: 0 <= i < |s| ==> r[i] == if Safe(s[i]) then s[i] else '_'
  {
    if s == "" then "" else [if Safe(s[0]) then s[0] else '_'] + Sanitised(s[1..])
  }

  /** At most 64 safe characters: the id's own, with '_' for each unsafe one, or "unknown" for an empty id. */
  function HumanizeOrderId(orderId: string): (r: string)
    ensures r != "" && forall c :: c in r ==> Safe(c)
    ensures orderId == "" ==> r == "unknown"
    ensures orderId != "" ==> |r| == if |orderId| <= 64 then |orderId| else 64
    ensures orderId != "" ==> forall i :: 0 <= i < |r| ==> r[i] == if Safe(orderId[i]) then orderId[i] else '_'
  {
    var safe := Sanitised(orderId);
    var short := if |safe| <= 64 then safe else safe[..64];
    if short == "" then "unknown" else short
  }

  function ComputeOrderKey(digest: string -> string, orderId: string, side: string): string {
    HumanizeOrderId(orderId) + "|" + (side + "#" + digest(orderId))
  }

  function Tag(side: string, name: string): string { side + ":" + name }

  function ComputeSubmissionKey(digest: string -> string, a: Action): string {
    Tag(a.side, a.name) + ":" + (HumanizeOrderId(a.orderId) + "#" + digest(a.orderId))
  }

  lemma FirstSeparator(a: string, b: string, a': string, b': string, c: char)
    requires c !in a && c !in a' && a + [c] + b == a' + [c] + b'
    ensures a == a' && b == b'
  {
    var s, s' := a + [c] + b, a' + [c] + b';
    assert s[|a|] == c && forall i :: 0 <= i < |a| ==> s[i] == a[i];
    assert s'[|a'|] == c && forall i :: 0 <= i < |a'| ==> s'[i] == a'[i];
    assert a == s[..|a|] && a' == s'[..|a'|] && b == s[|a| + 1..] && b' == s'[|a'| + 1..];
  }

  lemma LastSeparator(a: string, b: string, a': string, b': string, c: char)
    requires c !in b && c !in b' && a + [c] + b == a' + [c] + b'
    ensures a == a' && b == b'
  {
    var s, s' := a + [c] + b, a' + [c] + b';
    assert s[|a|] == c && forall i :: |a| < i < |s| ==> s[i] == b[i - |a| - 1];
    assert s'[|a'|] == c && forall i :: |a'| < i < |s'| ==> s'[i] == b'[i - |a'| - 1];
    assert a == s[..|a|] && a' == s'[..|a'|] && b == s[|a| + 1..] && b' == s'[|a'| + 1..];
  }

  lemma FixedSuffix(a: string, d: string, a': string, d': string)
    requires |d| == |d'| && a + "#" + d == a' + "#" + d'
    ensures a == a' && d == d'
  {
    var s := a + "#" + d;
    assert a == s[..|a|] && a' == s[..|a|] && d == s[|a| + 1..] && d' == s[|a| + 1..];
  }

  /** Two order keys are equal exactly when side, readable id and digest all are. */
  lemma OrderKeysEqual(digest: string -> string, o: string, side: string, o': string, side': string)
    requires EightDigits(digest)
    ensures ComputeOrderKey(digest, o, side) == ComputeOrderKey(digest, o', side') <==>
            HumanizeOrderId(o) == HumanizeOrderId(o') && side == side' && digest(o) == digest(o')
  {
    if ComputeOrderKey(digest, o, side) == ComputeOrderKey(digest, o', side') {
      FirstSeparator(HumanizeOrderId(o), side + "#" + digest(o), HumanizeOrderId(o'), side' + "#" + digest(o'), '|');
      FixedSuffix(side, digest(o), side', digest(o'));
    }
  }

  /** Two submission keys are equal exactly when `side:action`, readable id and digest all are. */
  lemma SubmissionKeysEqual(digest: string -> string, a: Action, b: Action)
    requires EightDigits(digest)
    ensures ComputeSubmissionKey(digest, a) == ComputeSubmissionKey(digest, b) <==>
            && Tag(a.side, a.name) == Tag(b.side, b.name)
            && HumanizeOrderId(a.orderId) == HumanizeOrderId(b.orderId) && digest(a.orderId) == digest(b.orderId)
  {
    if ComputeSubmissionKey(digest, a) == ComputeSubmissionKey(digest, b) {
      var ra, rb := HumanizeOrderId(a.orderId) + "#" + digest(a.orderId), HumanizeOrderId(b.orderId) + "#" + digest(b.orderId);
      var ka, kb := Tag(a.side, a.name), Tag(b.side, b.name);
      var fa, fb := ka + ":" + HumanizeOrderId(a.orderId), kb + ":" + HumanizeOrderId(b.orderId);
      assert ComputeSubmissionKey(digest, a) == fa + "#" + digest(a.orderId);
      assert ComputeSubmissionKey(digest, b) == fb + "#" + digest(b.orderId);
      FixedSuffix(fa, digest(a.orderId), fb, digest(b.orderId));
      LastSeparator(ka, HumanizeOrderId(a.orderId), kb, HumanizeOrderId(b.orderId), ':');
    }
  }

  /** One side continues the other after a ':'. */
  predicate Nested(side: string, other: string) {
    side + ":" <= other
  }

  lemma EqualTags(side: string, name: string, side': string, name': string)
    requires Tag(side, name) == Tag(side', name') && |side| <= |side'|
    ensures (side == side' && name == name') || Nested(side, side')
  {
    var s := Tag(side, name);
    assert s[..|side|] == side && s[|side|] == ':' && s[|side| + 1..] == name;
    assert s[..|side'|] == side' && s[|side'| + 1..] == name';
    if |side| < |side'| {
      assert side' == s[..|side'|];
      assert side + ":" == s[..|side| + 1];
    }
  }

  /** A side that continues another after a ':' lets two different actions of one order share a key, whatever the digest. */
  lemma ColonInSideConfusesKeys(keyDigest: string -> string, orderId: string, side: string, rest: string, name: string)
    ensures var a, b := Action(orderId, side + ":" + rest, name), Action(orderId, side, rest + ":" + name);
            a != b && ComputeSubmissionKey(keyDigest, a) == ComputeSubmissionKey(keyDigest, b)
  {
    assert Tag(side + ":" + rest, name) == Tag(side, rest + ":" + name);
    assert |side + ":" + rest| > |side|;
  }

  ghost predicate NamesCollide(side: string, side': string) {
    exists name: string, name': string :: (side != side' || name != name') && Tag(side, name) == Tag(side', name')
  }

  /** Some names of two sides collide exactly when one side continues the other after a ':'. */
  lemma NamesCollideIffNested(side: string, side': string)
    ensures NamesCollide(side, side') <==> Nested(side, side') || Nested(side', side)
  {
    if name: string, name': string :| (side != side' || name != name') && Tag(side, name) == Tag(side', name') {
      if |side| <= |side'| {
        EqualTags(side, name, side', name');
      } else {
        EqualTags(side', name', side, name);
      }
    }
    if Nested(side, side') {
      var rest := side'[|side| + 1..];
      assert Tag(side', "") == Tag(side, rest + ":");
    }
    if Nested(side', side) {
      var rest := side[|side'| + 1..];
      assert Tag(side, "") == Tag(side', rest + ":");
    }
  }

  /**
   * With a digest that tells the two ids apart and sides that do not nest, keys identify
   * actions and order keys identify orders.
   */
  lemma KeysIdentifyActions(orderDigest: string -> string, keyDigest: string -> string, a: Action, b: Action)
    requires EightDigits(orderDigest) && EightDigits(keyDigest)
    requires orderDigest(a.orderId) == orderDigest(b.orderId) ==> a.orderId == b.orderId
    requires keyDigest(a.orderId) == keyDigest(b.orderId) ==> a.orderId == b.orderId
    requires !Nested(a.side, b.side) && !Nested(b.side, a.side)
    ensures ComputeSubmissionKey(keyDigest, a) == ComputeSubmissionKey(keyDigest, b) <==> a == b
    ensures ComputeOrderKey(orderDigest, a.orderId, a.side) == ComputeOrderKey(orderDigest, b.orderId, b.side) <==> SameOrder(a, b)
  {
    SubmissionKeysEqual(keyDigest, a, b);
    OrderKeysEqual(orderDigest, a.orderId, a.side, b.orderId, b.side);
    NamesCollideIffNested(a.side, b.side);
  }

  ghost predicate KeysAreFaithful(keyDigest: string -> string, orderId: string, side: string, side': string) {
    forall name: string, name': string ::
      ComputeSubmissionKey(keyDigest, Action(orderId, side, name)) == ComputeSubmissionKey(keyDigest, Action(orderId, side', name')) ==>
        side == side' && name == name'
  }

  /** On one order, two sides keep all their actions' keys apart exactly when neither continues the other after a ':'. */
  lemma KeysAreFaithfulIffSidesDoNotNest(keyDigest: string -> string, orderId: string, side: string, side': string)
    requires EightDigits(keyDigest)
    ensures KeysAreFaithful(keyDigest, orderId, side, side') <==> !Nested(side, side') && !Nested(side', side)
  {
    NamesCollideIffNested(side, side');
    forall name: string, name': string
      ensures ComputeSubmissionKey(keyDigest, Action(orderId, side, name)) == ComputeSubmissionKey(keyDigest, Action(orderId, side', name')) <==>
              Tag(side, name) == Tag(side', name')
    {
      SubmissionKeysEqual(keyDigest, Action(orderId, side, name), Action(orderId, side', name'));
    }
  }
}
