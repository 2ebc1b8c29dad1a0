/**
  Signed ingress: a message is taken when its time is close to now, its signature is right and its nonce is new.
  Nonces are forgotten after a while; the replay window is closed exactly when they live longer than twice the skew.
 */
module Ingress {
  import opened Wrappers

  datatype Binding = PushSigned(secret: string) | Other

  datatype Message = Message(system: string, timestamp: int, nonce: string, body: string)

  function LowerChar(c: char): char {
    if 'A' <= c <= 'Z' then c - 'A' + 'a' else c
  }

  function Lower(s: string): (r: string)
    ensures |r| == |s|
  {
    seq(|s|, i requires 0 <= i < |s| => LowerChar(s[i]))
  }

  predicate IsHex(c: char) {
    '0' <= c <= '9' || 'a' <= c <= 'f'
  }

  /** A signature as the gateway computes it: hexadecimal digits in lower case. */
  type Digest = s: string | forall i :: 0 <= i < |s| ==> IsHex(s[i])

  lemma LowerDigest(s: Digest)
    ensures Lower(s) == s
  {
    assert forall i :: 0 <= i < |s| ==> IsHex(s[i]) && Lower(s)[i] == s[i];
  }

  function UpperChar(c: char): char {
    if 'a' <= c <= 'f' then c - 'a' + 'A' else c
  }

  /** A right signature may be given in upper case. */
  lemma UpperDigest(s: Digest, given: string)
    requires |given| == |s| && forall i :: 0 <= i < |s| ==> given[i] == s[i] || given[i] == UpperChar(s[i])
    ensures Lower(given) == s
  {
    forall i | 0 <= i < |s| ensures Lower(given)[i] == s[i] {
      assert IsHex(s[i]);
    }
  }

  datatype Config = Config(
    skew: nat, ttl: nat, maxBody: nat, bindings: map<string, Binding>, sign: (string, Message) -> Digest)

  datatype IngressError =
    | UnknownSystem | NotPushSigned | OutsideSkew | BodyTooLarge | BadSignature | BadNonce | Replayed

  datatype Request = Request(message: Message, signature: string, now: real)

  type Key = (string, string)

  /** Expiry times of the nonces seen, per system. */
  type Nonces = map<Key, real>

  /** The whitespace of Unicode: separators and the characters of the bidirectional types B, S and WS. */
  predicate IsSpace(c: char) {
    var u := c as int;
    || 0x09 <= u <= 0x0D || 0x1C <= u <= 0x20 || u == 0x85 || u == 0xA0 || u == 0x1680
    || 0x2000 <= u <= 0x200A || u == 0x2028 || u == 0x2029 || u == 0x202F || u == 0x205F || u == 0x3000
  }

  const SPACES: set<int> := {
    0x09, 0x0A, 0x0B, 0x0C, 0x0D, 0x1C, 0x1D, 0x1E, 0x1F, 0x20, 0x85, 0xA0, 0x1680, 0x2000, 0x2001, 0x2002, 0x2003,
    0x2004, 0x2005, 0x2006, 0x2007, 0x2008, 0x2009, 0x200A, 0x2028, 0x2029, 0x202F, 0x205F, 0x3000}

  lemma SpacesListed(c: char)
    ensures IsSpace(c) <==> c as int in SPACES
  {
  }

  predicate GoodNonce(nonce: string) {
    16 <= |nonce| <= 128 && forall i :: 0 <= i < |nonce| ==> !IsSpace(nonce[i])
  }

  function KeyOf(m: Message): Key {
    (m.system, m.nonce)
  }

  /** The checks that come before the nonce is looked at. */
  function Checked(cfg: Config, r: Request): Option<IngressError> {
    var m := r.message;
    var ts := m.timestamp as real;
    if m.system !in cfg.bindings then Some(UnknownSystem)
    else if cfg.bindings[m.system].Other? then Some(NotPushSigned)
    else if r.now - ts > cfg.skew as real || ts - r.now > cfg.skew as real then Some(OutsideSkew)
    else if |m.body| > cfg.maxBody then Some(BodyTooLarge)
    else if cfg.sign(cfg.bindings[m.system].secret, m) != Lower(r.signature) then Some(BadSignature)
    else if !GoodNonce(m.nonce) then Some(BadNonce)
    else None
  }

  function Live(nonces: Nonces, now: real): Nonces {
    map k | k in nonces && now < nonces[k] :: nonces[k]
  }

  /** One request: the nonces afterwards, and why it was refused, if it was. */
  function Present(cfg: Config, nonces: Nonces, r: Request): (Nonces, Option<IngressError>) {
    var failed := Checked(cfg, r);
    if failed.Some? then (nonces, failed)
    else
      var live, key := Live(nonces, r.now), KeyOf(r.message);
      if key in live then (live, Some(Replayed)) else (live[key := r.now + cfg.ttl as real], None)
  }

  /** The nonces after the first n requests. */
  function After(cfg: Config, requests: seq<Request>, n: nat): Nonces
    requires n <= |requests|
  {
    if n == 0 then map[] else Present(cfg, After(cfg, requests, n - 1), requests[n - 1]).0
  }

  predicate Accepted(cfg: Config, requests: seq<Request>, i: nat)
    requires i < |requests|
  {
    Present(cfg, After(cfg, requests, i), requests[i]).1.None?
  }

  /** The clock does not run back. */
  ghost predicate Clocked(requests: seq<Request>) {
    forall i, j :: 0 <= i < j < |requests| ==> requests[i].now <= requests[j].now
  }

  /** In no run is the same signed message accepted twice. */
  ghost predicate ReplayFree(cfg: Config) {
    forall requests: seq<Request>, i, j ::
      Clocked(requests) && 0 <= i < j < |requests| && Accepted(cfg, requests, i) && Accepted(cfg, requests, j) ==>
        requests[i].message != requests[j].message
  }

  /** An accepted nonce is remembered until it expires, whatever comes in between. */
  lemma {:induction false} NonceIsRemembered(cfg: Config, requests: seq<Request>, i: nat, n: nat)
    requires i < n <= |requests| && Accepted(cfg, requests, i) && Clocked(requests)
    requires requests[n - 1].now < requests[i].now + cfg.ttl as real
    ensures
      var key := KeyOf(requests[i].message);
      key in After(cfg, requests, n) && After(cfg, requests, n)[key] == requests[i].now + cfg.ttl as real
  {
    if i + 1 < n {
      assert requests[n - 2].now <= requests[n - 1].now;
      NonceIsRemembered(cfg, requests, i, n - 1);
    }
  }

  lemma AcceptedAtMostOnce(cfg: Config, requests: seq<Request>, i: nat, j: nat)
    requires 2 * cfg.skew < cfg.ttl && Clocked(requests) && i < j < |requests|
    requires Accepted(cfg, requests, i) && requests[i].message == requests[j].message
    ensures !Accepted(cfg, requests, j)
  {
    if Checked(cfg, requests[j]).None? {
      assert requests[j].now < requests[i].now + cfg.ttl as real;
      assert requests[j - 1].now <= requests[j].now;
      NonceIsRemembered(cfg, requests, i, j);
    }
  }

  /** Every nonce stored came with an accepted request and expires a life after it. */
  lemma {:induction false} StoredWasAccepted(cfg: Config, requests: seq<Request>, n: nat, key: Key) returns (i: nat)
    requires n <= |requests| && key in After(cfg, requests, n)
    ensures i < n && Accepted(cfg, requests, i) && KeyOf(requests[i].message) == key
    ensures After(cfg, requests, n)[key] == requests[i].now + cfg.ttl as real
  {
    var before := After(cfg, requests, n - 1);
    if Accepted(cfg, requests, n - 1) && KeyOf(requests[n - 1].message) == key {
      i := n - 1;
    } else {
      i := StoredWasAccepted(cfg, requests, n - 1, key);
    }
  }

  /** The nonce of request j was used by an earlier accepted request of the system that has not expired. */
  ghost predicate NonceInUse(cfg: Config, requests: seq<Request>, j: nat)
    requires j < |requests|
  {
    exists i ::
      && 0 <= i < j && Accepted(cfg, requests, i)
      && requests[i].message.system == requests[j].message.system
      && requests[i].message.nonce == requests[j].message.nonce
      && requests[j].now < requests[i].now + cfg.ttl as real
  }

  lemma LiveIffInUse(cfg: Config, requests: seq<Request>, j: nat)
    requires j < |requests| && Clocked(requests)
    ensures KeyOf(requests[j].message) in Live(After(cfg, requests, j), requests[j].now) <==>
      NonceInUse(cfg, requests, j)
  {
    var key := KeyOf(requests[j].message);
    if key in Live(After(cfg, requests, j), requests[j].now) {
      var i := StoredWasAccepted(cfg, requests, j, key);
    }
    if NonceInUse(cfg, requests, j) {
      var i :| 0 <= i < j && Accepted(cfg, requests, i)
        && requests[i].message.system == requests[j].message.system
        && requests[i].message.nonce == requests[j].message.nonce
        && requests[j].now < requests[i].now + cfg.ttl as real;
      assert requests[j - 1].now <= requests[j].now;
      NonceIsRemembered(cfg, requests, i, j);
    }
  }

  /** The request itself is in order: its sender, time, length, signature, and the form of its nonce. */
  ghost predicate InOrder(cfg: Config, r: Request) {
    var m := r.message;
    && m.system in cfg.bindings && cfg.bindings[m.system].PushSigned?
    && r.now - cfg.skew as real <= m.timestamp as real <= r.now + cfg.skew as real
    && |m.body| <= cfg.maxBody
    && cfg.sign(cfg.bindings[m.system].secret, m) == Lower(r.signature)
    && 16 <= |m.nonce| <= 128 && forall i :: 0 <= i < |m.nonce| ==> m.nonce[i] as int !in SPACES
  }

  /** Exactly when a request is accepted, in every run of the clock: it is in order and its nonce is not in use. */
  lemma AcceptedIff(cfg: Config, requests: seq<Request>, j: nat)
    requires j < |requests| && Clocked(requests)
    ensures Accepted(cfg, requests, j) <==> InOrder(cfg, requests[j]) && !NonceInUse(cfg, requests, j)
  {
    LiveIffInUse(cfg, requests, j);
    InOrderIff(cfg, requests[j]);
  }

  lemma InOrderIff(cfg: Config, r: Request)
    ensures InOrder(cfg, r) <==> Checked(cfg, r).None?
  {
    forall i | 0 <= i < |r.message.nonce|
      ensures IsSpace(r.message.nonce[i]) <==> r.message.nonce[i] as int in SPACES
    {
      SpacesListed(r.message.nonce[i]);
    }
  }

  /** A request that is not in order leaves every nonce as it was, and the error names a test that it fails. */
  lemma RefusedForCause(cfg: Config, nonces: Nonces, r: Request)
    ensures
      var (after, failed) := Present(cfg, nonces, r);
      var m := r.message;
      && (!InOrder(cfg, r) ==> after == nonces)
      && (failed == Some(UnknownSystem) <==> m.system !in cfg.bindings)
      && (failed == Some(NotPushSigned) <==> m.system in cfg.bindings && !cfg.bindings[m.system].PushSigned?)
      && (failed == Some(OutsideSkew) ==>
            r.now + cfg.skew as real < m.timestamp as real || m.timestamp as real < r.now - cfg.skew as real)
      && (failed == Some(BodyTooLarge) ==> cfg.maxBody < |m.body|)
      && (failed == Some(BadSignature) ==>
            m.system in cfg.bindings && cfg.bindings[m.system].PushSigned?
            && cfg.sign(cfg.bindings[m.system].secret, m) != Lower(r.signature))
      && (failed == Some(Replayed) ==> InOrder(cfg, r) && (m.system, m.nonce) in nonces)
  {
    InOrderIff(cfg, r);
  }

  /** With a shorter life, a message sent early by the full skew can be sent again late by the full skew. */
  lemma ReplayWithShortLife(cfg: Config, system: string)
    requires cfg.ttl <= 2 * cfg.skew && system in cfg.bindings && cfg.bindings[system].PushSigned?
    ensures !ReplayFree(cfg)
  {
    var m := Message(system, cfg.skew, "aaaaaaaaaaaaaaaa", "");
    var signature := cfg.sign(cfg.bindings[system].secret, m);
    LowerDigest(signature);
    var early := Request(m, signature, 0.0);
    var late := Request(m, signature, (2 * cfg.skew) as real);
    var requests := [early, late];
    assert After(cfg, requests, 0) == map[];
    assert Accepted(cfg, requests, 0);
    assert After(cfg, requests, 1) == map[KeyOf(m) := early.now + cfg.ttl as real];
    assert Live(After(cfg, requests, 1), late.now) == map[];
    assert Accepted(cfg, requests, 1);
    assert Clocked(requests) && requests[0].message == requests[1].message;
  }

  /** Replay is impossible exactly when nonces outlive twice the allowed skew. */
  lemma ReplayFreeIff(cfg: Config, system: string)
    requires system in cfg.bindings && cfg.bindings[system].PushSigned?
    ensures ReplayFree(cfg) <==> 2 * cfg.skew < cfg.ttl
  {
    if cfg.ttl <= 2 * cfg.skew {
      ReplayWithShortLife(cfg, system);
    } else {
      forall requests: seq<Request>, i, j |
        Clocked(requests) && 0 <= i < j < |requests| && Accepted(cfg, requests, i) && Accepted(cfg, requests, j)
        ensures requests[i].message != requests[j].message
      {
        if requests[i].message == requests[j].message {
          AcceptedAtMostOnce(cfg, requests, i, j);
          assert false;
        }
      }
    }
  }

  /** The bounds that the configuration is checked against. */
  predicate WithinBounds(cfg: Config) {
    1024 <= cfg.maxBody <= 1048576 && 5 <= cfg.skew <= 300 && 30 <= cfg.ttl <= 3600
  }

  /** The bounds alone leave the window open: the longest skew with the shortest life passes them. */
  lemma BoundsDoNotCloseTheWindow(sign: (string, Message) -> Digest, system: string, secret: string)
    ensures
      var cfg := Config(300, 30, 65536, map[system := PushSigned(secret)], sign);
      WithinBounds(cfg) && !ReplayFree(cfg)
  {
    var cfg := Config(300, 30, 65536, map[system := PushSigned(secret)], sign);
    ReplayWithShortLife(cfg, system);
  }

  /** The settings used where none are given, a skew of 60 and a life of 300 seconds, do close it. */
  lemma DefaultsCloseTheWindow(sign: (string, Message) -> Digest, system: string, secret: string)
    ensures
      var cfg := Config(60, 300, 65536, map[system := PushSigned(secret)], sign);
      WithinBounds(cfg) && ReplayFree(cfg)
  {
    ReplayFreeIff(Config(60, 300, 65536, map[system := PushSigned(secret)], sign), system);
  }

  // ---------------------------------------------------------------------------------------------

  class GatewayIngress {
    const cfg: Config
    var nonces: Nonces

    constructor (cfg: Config)
      ensures this.cfg == cfg && nonces == map[]
    {
      this.cfg, nonces := cfg, map[];
    }

    /** Forgets expired nonces, then takes the new one or reports a replay. */
    method ClaimNonce(system: string, nonce: string, now: real) returns (failed: Option<IngressError>)
      modifies this
      ensures !GoodNonce(nonce) ==> failed == Some(BadNonce) && nonces == old(nonces)
      ensures GoodNonce(nonce) ==>
        var live := Live(old(nonces), now);
        if (system, nonce) in live then failed == Some(Replayed) && nonces == live
        else failed == None && nonces == live[(system, nonce) := now + cfg.ttl as real]
    {
      if !GoodNonce(nonce) {
        return Some(BadNonce);
      }
      nonces := Live(nonces, now);
      if (system, nonce) in nonces {
        return Some(Replayed);
      }
      nonces := nonces[(system, nonce) := now + cfg.ttl as real];
      return None;
    }

    method VerifySignature(r: Request) returns (failed: Option<IngressError>)
      modifies this
      ensures (nonces, failed) == Present(cfg, old(nonces), r)
    {
      var m := r.message;
      if m.system !in cfg.bindings {
        return Some(UnknownSystem);
      }
      var binding := cfg.bindings[m.system];
      if binding.Other? {
        return Some(NotPushSigned);
      }
      var ahead := r.now - m.timestamp as real;
      if ahead > cfg.skew as real || -ahead > cfg.skew as real {
        return Some(OutsideSkew);
      }
      if |m.body| > cfg.maxBody {
        return Some(BodyTooLarge);
      }
      if cfg.sign(binding.secret, m) != Lower(r.signature) {
        return Some(BadSignature);
      }
      failed := ClaimNonce(m.system, m.nonce, r.now);
    }
  }
}
