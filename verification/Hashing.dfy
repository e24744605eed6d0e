/** SHA-256 hex digests, kept abstract.

    A digest function is any total function from strings to strings of 64
    characters.  It is never assumed to be injective (no fixed-width function
    is): a theorem that would need injectivity returns `Evidence` instead, a
    concrete pair of colliding inputs or a concrete preimage of the all-zero
    value that both hash chains start from.
 */
module Hashing {
  type Hash = string -> string

  const DIGEST_LENGTH := 64

  /** The value "0" * 64: genesis of the audit ledger, initial `prev_root` of
      the gateway, and the SIEM's answer for an empty table. */
  const ZERO: string := Repeat('0', DIGEST_LENGTH)

  function Repeat(c: char, n: nat): (s: string)
    ensures |s| == n && forall i :: 0 <= i < n ==> s[i] == c
  {
    seq(n, _ => c)
  }

  ghost predicate Wide(h: Hash) {
    forall x: string :: |h(x)| == DIGEST_LENGTH
  }

  /** What a comparison of two hashed structures can exhibit. */
  datatype Evidence =
    | NoEvidence
    | Collision(left: string, right: string)
    | ZeroPreimage(input: string)

  /** The evidence is real: two different inputs with one digest, or an input
      whose digest is all zeros. */
  predicate Genuine(h: Hash, e: Evidence) {
    match e
    case NoEvidence => true
    case Collision(left, right) => left != right && h(left) == h(right)
    case ZeroPreimage(input) => h(input) == ZERO
  }

  function OrElse(d: Evidence, e: Evidence): Evidence {
    if d.NoEvidence? then e else d
  }

  /** The first evidence in a list of findings. */
  function First(findings: seq<Evidence>): Evidence {
    if findings == [] then NoEvidence
    else OrElse(findings[0], First(findings[1..]))
  }

  lemma {:induction false} FirstSound(h: Hash, findings: seq<Evidence>)
    requires forall i :: 0 <= i < |findings| ==> Genuine(h, findings[i])
    ensures Genuine(h, First(findings))
    ensures First(findings).NoEvidence? <==> forall i :: 0 <= i < |findings| ==> findings[i].NoEvidence?
  {
    if findings != [] {
      FirstSound(h, findings[1..]);
      assert forall i :: 0 < i < |findings| ==> findings[1..][i - 1] == findings[i];
    }
  }

  /** The digest tells these texts apart. */
  ghost predicate Separates(h: Hash, texts: seq<string>) {
    forall i, j :: 0 <= i < |texts| && 0 <= j < |texts| && h(texts[i]) == h(texts[j]) ==> texts[i] == texts[j]
  }

  /** Searches a list of texts for two different ones with one digest. */
  function Clash(h: Hash, texts: seq<string>): Evidence {
    if texts == [] then NoEvidence
    else
      var last := texts[|texts| - 1];
      var found := ClashWith(h, texts[..|texts| - 1], last);
      if found.NoEvidence? then Clash(h, texts[..|texts| - 1]) else found
  }

  function ClashWith(h: Hash, texts: seq<string>, t: string): Evidence {
    if texts == [] then NoEvidence
    else
      var last := texts[|texts| - 1];
      if last != t && h(last) == h(t) then Collision(last, t) else ClashWith(h, texts[..|texts| - 1], t)
  }

  lemma {:induction false} ClashWithSound(h: Hash, texts: seq<string>, t: string)
    ensures Genuine(h, ClashWith(h, texts, t)) && !ClashWith(h, texts, t).ZeroPreimage?
    ensures ClashWith(h, texts, t).NoEvidence? <==>
            forall i :: 0 <= i < |texts| && h(texts[i]) == h(t) ==> texts[i] == t
  {
    if texts != [] {
      var n := |texts| - 1;
      ClashWithSound(h, texts[..n], t);
      assert forall i :: 0 <= i < n ==> texts[..n][i] == texts[i];
    }
  }

  /** The search finds a collision exactly if there is one in the list. */
  lemma {:induction false} ClashSound(h: Hash, texts: seq<string>)
    ensures Genuine(h, Clash(h, texts)) && !Clash(h, texts).ZeroPreimage?
    ensures Clash(h, texts).NoEvidence? <==> Separates(h, texts)
  {
    if texts != [] {
      var n := |texts| - 1;
      ClashSound(h, texts[..n]);
      ClashWithSound(h, texts[..n], texts[n]);
      assert forall i :: 0 <= i < n ==> texts[..n][i] == texts[i];
    }
  }
}
