/** The SIEM witness of siem_service.py: a table of signed roots, fed by
    submissions that may be repeated, reordered or compete with each other. */
module Siem {
  import opened Hashing

  /** One payload, and equally one row of the table. */
  datatype Submission = Submission(rootHash: string, prevHash: string, timestamp: string, signature: string)

  /** Outcome of the RSA-PSS check of a root; a signature that is not
      hexadecimal raises before the check. */
  datatype SignatureCheck = ValidSignature | InvalidSignature | MalformedSignature

  /** (root, signature) -> outcome */
  type Verifier = (string, string) -> SignatureCheck

  datatype Reply = Ignored | Forbidden | Conflict | ServerError | Accepted

  predicate Stored(table: seq<Submission>, root: string) {
    exists i :: 0 <= i < |table| && table[i].rootHash == root
  }

  function LatestRoot(table: seq<Submission>): string {
    if table == [] then ZERO else table[|table| - 1].rootHash
  }

  /** The five exits of /ingest, in their order. */
  function Judge(v: Verifier, table: seq<Submission>, d: Submission, dbError: bool): Reply {
    if Stored(table, d.rootHash) then Ignored
    else
      match v(d.rootHash, d.signature)
      case MalformedSignature => ServerError
      case InvalidSignature => Forbidden
      case ValidSignature =>
        if LatestRoot(table) != ZERO && d.prevHash != LatestRoot(table) then Conflict
        else if dbError then ServerError
        else Accepted
  }

  function Ingest(v: Verifier, table: seq<Submission>, d: Submission, dbError: bool): seq<Submission> {
    if Judge(v, table, d, dbError) == Accepted then table + [d] else table
  }

  /** A sequence of requests; each says whether its insert hits a database error. */
  function IngestAll(v: Verifier, table: seq<Submission>, requests: seq<(Submission, bool)>): seq<Submission>
    decreases |requests|
  {
    if requests == [] then table
    else
      var last := requests[|requests| - 1];
      Ingest(v, IngestAll(v, table, requests[..|requests| - 1]), last.0, last.1)
  }

  class SiemService {
    var chain: seq<Submission>

    constructor ()
      ensures chain == []
    {
      chain := [];
    }

    method GetLatestRoot() returns (root: string)
      ensures root == LatestRoot(chain)
      ensures root == if chain == [] then ZERO else chain[|chain| - 1].rootHash
    {
      root := if |chain| > 0 then chain[|chain| - 1].rootHash else ZERO;
    }

    /** A root that is stored is ignored, whatever else is wrong with it; then a
        signature that fails is forbidden, one that does not parse raises, another
        predecessor than a last root that is not all zeros is a conflict, and what
        remains is stored, unless the database raises. */
    method IngestRoot(v: Verifier, data: Submission, dbError: bool) returns (reply: Reply)
      modifies this
      ensures reply == Judge(v, old(chain), data, dbError)
      ensures chain == Ingest(v, old(chain), data, dbError)
      ensures var rows, check := old(chain), v(data.rootHash, data.signature);
              var stored := exists i :: 0 <= i < |rows| && rows[i].rootHash == data.rootHash;
              var conflict := |rows| > 0 && rows[|rows| - 1].rootHash != ZERO &&
                              data.prevHash != rows[|rows| - 1].rootHash;
              && (reply == Ignored <==> stored)
              && (reply == Forbidden <==> !stored && check == InvalidSignature)
              && (reply == Conflict <==> !stored && check == ValidSignature && conflict)
              && (reply == ServerError <==>
                    && !stored
                    && (check == MalformedSignature || (check == ValidSignature && !conflict && dbError)))
              && (reply == Accepted <==> !stored && check == ValidSignature && !conflict && !dbError)
              && chain == if reply == Accepted then rows + [data] else rows
      ensures old(Linked(v, chain)) ==> Linked(v, chain)
    {
      AcceptanceKeepsLinked(v, chain, data, dbError);
      if exists i :: 0 <= i < |chain| && chain[i].rootHash == data.rootHash {
        return Ignored;
      }
      match v(data.rootHash, data.signature) {
        case MalformedSignature => return ServerError;
        case InvalidSignature => return Forbidden;
        case ValidSignature =>
      }
      var lastRoot := GetLatestRoot();
      if lastRoot != ZERO && data.prevHash != lastRoot {
        return Conflict;
      }
      if dbError {
        return ServerError;
      }
      chain := chain + [data];
      return Accepted;
    }
  }

  // --------------------------------------------------------------- invariants

  /** Distinct validly signed roots, each row linked to the one before it
      unless that one's root is all zeros. */
  ghost predicate Linked(v: Verifier, table: seq<Submission>) {
    && (forall i :: 0 <= i < |table| ==> v(table[i].rootHash, table[i].signature) == ValidSignature)
    && (forall i, j :: 0 <= i < j < |table| ==> table[i].rootHash != table[j].rootHash)
    && (forall i :: 0 < i < |table| ==>
          table[i - 1].rootHash == ZERO || table[i].prevHash == table[i - 1].rootHash)
  }

  lemma AcceptanceKeepsLinked(v: Verifier, table: seq<Submission>, d: Submission, dbError: bool)
    ensures Linked(v, table) ==> Linked(v, Ingest(v, table, d, dbError))
  {
  }

  /** Whatever is submitted, in whatever order and however often, the table
      only grows, and stays linked. */
  lemma {:induction false} AppendOnlyAndLinked(v: Verifier, table: seq<Submission>, requests: seq<(Submission, bool)>)
    requires Linked(v, table)
    ensures table <= IngestAll(v, table, requests)
    ensures Linked(v, IngestAll(v, table, requests))
    decreases |requests|
  {
    if requests != [] {
      var last := requests[|requests| - 1];
      AppendOnlyAndLinked(v, table, requests[..|requests| - 1]);
      AcceptanceKeepsLinked(v, IngestAll(v, table, requests[..|requests| - 1]), last.0, last.1);
    }
  }

  /** No fork is ever stored: as long as the all-zero root has not been
      accepted, no two rows after the first name the same predecessor, and a
      row's predecessor is never a row other than the preceding one. */
  lemma NoForks(v: Verifier, requests: seq<(Submission, bool)>, i: nat, j: nat)
    requires var table := IngestAll(v, [], requests); 0 < i < j < |table| && !Stored(table, ZERO)
    ensures var table := IngestAll(v, [], requests);
            && table[i].prevHash != table[j].prevHash
            && forall k :: 0 <= k < |table| && table[j].prevHash == table[k].rootHash ==> k == j - 1
  {
    AppendOnlyAndLinked(v, [], requests);
    var table := IngestAll(v, [], requests);
    assert table[i].prevHash == table[i - 1].rootHash && table[j].prevHash == table[j - 1].rootHash;
  }

  /** `/latest` names the tip: a row is the latest one if and only if no row
      after the first names it as its predecessor. */
  lemma LatestRootIsTip(v: Verifier, requests: seq<(Submission, bool)>, i: nat)
    requires var table := IngestAll(v, [], requests); i < |table| && !Stored(table, ZERO)
    ensures var table := IngestAll(v, [], requests);
            table[i].rootHash == LatestRoot(table) <==>
            forall j :: 0 < j < |table| ==> table[j].prevHash != table[i].rootHash
  {
    AppendOnlyAndLinked(v, [], requests);
    var table := IngestAll(v, [], requests);
    if i < |table| - 1 {
      assert table[i + 1].prevHash == table[i + 1 - 1].rootHash;
    } else {
      forall j | 0 < j < |table| ensures table[j].prevHash != table[i].rootHash {
        assert table[j].prevHash == table[j - 1].rootHash;
      }
    }
  }

  predicate UnlinkedAt(table: seq<Submission>, i: nat) {
    0 < i < |table| && table[i].prevHash != table[i - 1].rootHash
  }

  /** The all-zero root is the one hole in the link check: some run stores a row
      that does not name the row before it if and only if a signature of the
      all-zero value, and of some other root, passes. */
  lemma UnlinkedIffZeroSigned(v: Verifier)
    ensures (exists requests, i: nat :: UnlinkedAt(IngestAll(v, [], requests), i)) <==>
            (exists sz, r, sr :: r != ZERO && v(ZERO, sz) == ValidSignature && v(r, sr) == ValidSignature)
  {
    if requests, i: nat :| UnlinkedAt(IngestAll(v, [], requests), i) {
      AppendOnlyAndLinked(v, [], requests);
      var table := IngestAll(v, [], requests);
      assert v(table[i - 1].rootHash, table[i - 1].signature) == ValidSignature;
      assert v(table[i].rootHash, table[i].signature) == ValidSignature;
    }
    if sz, r, sr :| r != ZERO && v(ZERO, sz) == ValidSignature && v(r, sr) == ValidSignature {
      var zero, other := Submission(ZERO, "", "", sz), Submission(r, "", "", sr);
      var requests := [(zero, false), (other, false)];
      assert requests[..1] == [(zero, false)] && requests[..1][..0] == [];
      assert IngestAll(v, [], requests[..1]) == [zero];
      assert IngestAll(v, [], requests) == [zero, other];
      assert UnlinkedAt(IngestAll(v, [], requests), 1);
    }
  }

  lemma {:induction false} ReplayChangesNothing(v: Verifier, table: seq<Submission>, requests: seq<(Submission, bool)>,
                                                  replay: Submission, dbError: bool)
    requires Stored(table, replay.rootHash)
    ensures Judge(v, IngestAll(v, table, requests), replay, dbError) == Ignored
    ensures IngestAll(v, table, requests + [(replay, dbError)]) == IngestAll(v, table, requests)
  {
    StoredStays(v, table, requests, replay.rootHash);
    assert (requests + [(replay, dbError)])[..|requests|] == requests;
  }

  lemma {:induction false} StoredStays(v: Verifier, table: seq<Submission>, requests: seq<(Submission, bool)>,
                                       root: string)
    requires Stored(table, root)
    ensures Stored(IngestAll(v, table, requests), root)
    decreases |requests|
  {
    if requests != [] {
      StoredStays(v, table, requests[..|requests| - 1], root);
      var before := IngestAll(v, table, requests[..|requests| - 1]);
      var i :| 0 <= i < |before| && before[i].rootHash == root;
      assert IngestAll(v, table, requests)[i] == before[i];
    }
  }

  // -------------------------------------------- deliveries of one gateway chain

  function Predecessor(chain: seq<Submission>, i: nat): string
    requires i < |chain|
  {
    if i == 0 then ZERO else chain[i - 1].rootHash
  }

  /** What one gateway sends: linked from the initial value on, no root
      repeated, no all-zero root, all signatures valid. */
  ghost predicate GatewayChain(v: Verifier, chain: seq<Submission>) {
    && (forall i :: 0 <= i < |chain| ==> v(chain[i].rootHash, chain[i].signature) == ValidSignature)
    && (forall i, j :: 0 <= i < j < |chain| ==> chain[i].rootHash != chain[j].rootHash)
    && (forall i :: 0 <= i < |chain| ==> chain[i].rootHash != ZERO)
    && (forall i {:trigger Predecessor(chain, i)} :: 0 <= i < |chain| ==>
          chain[i].prevHash == Predecessor(chain, i))
  }

  ghost predicate IsWindow(table: seq<Submission>, chain: seq<Submission>, from: nat, to: nat) {
    from <= to <= |chain| && table == chain[from..to]
  }

  /** However a gateway's submissions are lost, repeated or reordered on the
      way, and whichever inserts fail, the SIEM holds a contiguous window of
      the gateway's chain, in the gateway's order. */
  lemma {:induction false} AnyDeliveryStoresAWindow(v: Verifier, chain: seq<Submission>,
                                                    requests: seq<(Submission, bool)>)
    returns (from: nat, to: nat)
    requires GatewayChain(v, chain)
    requires forall k :: 0 <= k < |requests| ==> requests[k].0 in chain
    ensures IsWindow(IngestAll(v, [], requests), chain, from, to)
    decreases |requests|
  {
    if requests == [] {
      from, to := 0, 0;
    } else {
      var last := requests[|requests| - 1];
      from, to := AnyDeliveryStoresAWindow(v, chain, requests[..|requests| - 1]);
      from, to := WindowStep(v, chain, from, to, last.0, last.1);
    }
  }

  lemma WindowStep(v: Verifier, chain: seq<Submission>, from: nat, to: nat, d: Submission, dbError: bool)
    returns (from': nat, to': nat)
    requires GatewayChain(v, chain) && from <= to <= |chain| && d in chain
    ensures IsWindow(Ingest(v, chain[from..to], d, dbError), chain, from', to')
  {
    from', to' := from, to;
    var table := chain[from..to];
    if Judge(v, table, d, dbError) == Accepted {
      var k :| 0 <= k < |chain| && chain[k] == d;
      if from == to {
        assert table == [];
        from', to' := k, k + 1;
        assert table + [d] == chain[k..k + 1];
      } else {
        assert LatestRoot(table) == chain[to - 1].rootHash;
        assert chain[k].prevHash == Predecessor(chain, k);
        assert k > 0 && chain[k - 1].rootHash == chain[to - 1].rootHash;
        assert k == to;
        to' := to + 1;
        assert table + [d] == chain[from..to + 1];
      }
    }
  }

  function Delivered(chain: seq<Submission>): seq<(Submission, bool)>
    ensures |Delivered(chain)| == |chain|
  {
    if chain == [] then []
    else Delivered(chain[..|chain| - 1]) + [(chain[|chain| - 1], false)]
  }

  lemma GatewayChainPrefix(v: Verifier, chain: seq<Submission>)
    requires GatewayChain(v, chain) && chain != []
    ensures var initial, last := chain[..|chain| - 1], chain[|chain| - 1];
            GatewayChain(v, initial) && Ingest(v, initial, last, false) == chain
  {
    var initial := chain[..|chain| - 1];
    assert chain == initial + [chain[|chain| - 1]];
    assert forall i :: 0 <= i < |initial| ==> Predecessor(initial, i) == Predecessor(chain, i);
    assert chain[|initial|].prevHash == Predecessor(chain, |initial|);
  }

  /** In order and without database errors, the whole chain is stored. */
  lemma {:induction false} InOrderDeliveryStoresAll(v: Verifier, chain: seq<Submission>)
    requires GatewayChain(v, chain)
    ensures IngestAll(v, [], Delivered(chain)) == chain
    decreases |chain|
  {
    if chain != [] {
      var initial := chain[..|chain| - 1];
      GatewayChainPrefix(v, chain);
      InOrderDeliveryStoresAll(v, initial);
      assert Delivered(chain)[..|chain| - 1] == Delivered(initial);
    }
  }
}
