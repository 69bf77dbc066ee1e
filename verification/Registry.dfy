/** Registered agents, and authentication by a prefix index with a full scan behind it.
    bcrypt is an abstract predicate that says whether a token fits a hash. */
module Registry {
  import opened Events
  import opened Names

  datatype AgentRecord = AgentRecord(address: string, operatorId: string, tokenHash: string, webhookUrl: string, registeredAt: int)

  /** What Authenticate returns of a record: everything but the hash. */
  datatype Agent = Agent(address: string, operatorId: string, webhookUrl: string, registeredAt: int)

  function Public(r: AgentRecord): Agent {
    Agent(r.address, r.operatorId, r.webhookUrl, r.registeredAt)
  }

  /** A stored value; Garbled stands for bytes that do not parse as a record. */
  datatype Stored = Record(r: AgentRecord) | Garbled

  type Matcher = (string, string) -> bool

  function TokenPrefix(token: string): string {
    if |token| > 16 then token[8..16] else token
  }

  /** Long tokens share an index entry exactly when their bytes 8 to 15 agree; a short one is its own. */
  lemma SharedEntryIff(x: string, y: string)
    ensures |x| > 16 && |y| > 16 ==> (TokenPrefix(x) == TokenPrefix(y) <==> forall i :: 8 <= i < 16 ==> x[i] == y[i])
    ensures |x| <= 16 ==> TokenPrefix(x) == x
    ensures |x| > 16 ==> |TokenPrefix(x)| == 8
  {
    if |x| > 16 && |y| > 16 {
      assert forall i :: 8 <= i < 16 ==> TokenPrefix(x)[i - 8] == x[i] && TokenPrefix(y)[i - 8] == y[i];
    }
  }

  /** The record is readable, its hash fits the token, and the agent has its address, operator, webhook and time. */
  predicate Shows(v: Stored, fits: Matcher, token: string, agent: Agent) {
    && v.Record? && fits(v.r.tokenHash, token)
    && agent.address == v.r.address && agent.operatorId == v.r.operatorId
    && agent.webhookUrl == v.r.webhookUrl && agent.registeredAt == v.r.registeredAt
  }

  predicate Fits(fits: Matcher, v: Stored, token: string) {
    v.Record? && fits(v.r.tokenHash, token)
  }

  /** At most one stored record fits the token. */
  predicate Unique(agents: map<string, Stored>, fits: Matcher, token: string) {
    forall x, y :: x in agents && y in agents && Fits(fits, agents[x], token) && Fits(fits, agents[y], token) ==> x == y
  }

  predicate FitsAt(agents: map<string, Stored>, address: string, fits: Matcher, token: string) {
    address in agents && Fits(fits, agents[address], token)
  }

  class AgentRegistry {
    const fits: Matcher
    var agents: map<string, Stored>
    var index: map<string, string>

    constructor (fits: Matcher, agents: map<string, Stored>, index: map<string, string>)
      ensures this.fits == fits && this.agents == agents && this.index == index
    {
      this.fits, this.agents, this.index := fits, agents, index;
    }

    /** RegisterAgent: the record and its index entry, in one transaction.  The new token authenticates as
        the new record; any other token that fits neither the new record nor the one it replaces succeeds
        or fails as before, even if it shares the prefix whose index entry is overwritten. */
    method RegisterAgent(record: AgentRecord, token: string)
      modifies this
      ensures agents == old(agents)[record.address := Record(record)]
      ensures index == old(index)[TokenPrefix(token) := record.address]
      ensures fits(record.tokenHash, token) ==> Authenticated(agents, index, fits, token) == Some(Public(record))
      ensures fits(record.tokenHash, token) ==>
                Authenticated(agents, index, fits, token) == Some(Agent(record.address, record.operatorId, record.webhookUrl, record.registeredAt))
      ensures forall t :: !fits(record.tokenHash, t) && !FitsAt(old(agents), record.address, fits, t)
                ==> (Authenticated(agents, index, fits, t).Some? <==> Authenticated(old(agents), old(index), fits, t).Some?)
    {
      forall t | !fits(record.tokenHash, t) && !FitsAt(agents, record.address, fits, t)
        ensures Authenticated(agents[record.address := Record(record)], index[TokenPrefix(token) := record.address], fits, t).Some?
           <==> Authenticated(agents, index, fits, t).Some?
      {
        OthersAuthenticateAsBefore(agents, index, fits, record, token, t);
      }
      agents := agents[record.address := Record(record)];
      index := index[TokenPrefix(token) := record.address];
    }

    /** AuthenticateAgent: the index first, then every record in key order. */
    method AuthenticateAgent(token: string) returns (found: Option<Agent>)
      ensures found == Authenticated(agents, index, fits, token)
      ensures found.Some? ==> exists k <- agents :: Shows(agents[k], fits, token, found.value)
      ensures found.None? ==> forall k <- agents :: agents[k].Record? ==> !fits(agents[k].r.tokenHash, token)
    {
      AuthenticatedShows(agents, index, fits, token);
      var prefix := TokenPrefix(token);
      if prefix in index && index[prefix] in agents {
        var v := agents[index[prefix]];
        if v.Record? && fits(v.r.tokenHash, token) {
          return Some(Public(v.r));
        }
      }
      found := ScanAll(token);
    }

    /** The fallback: every record in key order, unreadable ones skipped. */
    method ScanAll(token: string) returns (found: Option<Agent>)
      ensures found == FullScan(agents, fits, token)
      ensures found.Some? ==> exists k :: FirstShown(agents, fits, token, k, found.value)
      ensures found.None? ==> forall k <- agents :: agents[k].Record? ==> !fits(agents[k].r.tokenHash, token)
    {
      ScannedFirst(agents, fits, token);
      var keys := Sorted(agents.Keys);
      for i := 0 to |keys|
        invariant FullScan(agents, fits, token) == Scanned(agents, keys[i..], fits, token)
      {
        ScannedNext(agents, keys, i, fits, token);
        var v := agents[keys[i]];
        if v.Garbled? {
          continue;
        }
        if fits(v.r.tokenHash, token) {
          return Some(Public(v.r));
        }
      }
      assert keys[|keys|..] == [];
      found := None;
    }
  }

  /** The scan: the first fitting record in key order. */
  function Scanned(agents: map<string, Stored>, keys: seq<string>, fits: Matcher, token: string): Option<Agent>
    requires forall k <- keys :: k in agents
  {
    if keys == [] then None
    else if Fits(fits, agents[keys[0]], token) then Some(Public(agents[keys[0]].r))
    else Scanned(agents, keys[1..], fits, token)
  }

  lemma ScannedNext(agents: map<string, Stored>, keys: seq<string>, i: nat, fits: Matcher, token: string)
    requires i < |keys| && forall k <- keys :: k in agents
    ensures keys[i] in agents && (forall k <- keys[i..] :: k in agents) && forall k <- keys[i + 1..] :: k in agents
    ensures Scanned(agents, keys[i..], fits, token)
         == if Fits(fits, agents[keys[i]], token) then Some(Public(agents[keys[i]].r)) else Scanned(agents, keys[i + 1..], fits, token)
  {
    assert keys[i] in keys && keys[i..][0] == keys[i] && keys[i..][1..] == keys[i + 1..];
  }

  function FullScan(agents: map<string, Stored>, fits: Matcher, token: string): Option<Agent> {
    Scanned(agents, Sorted(agents.Keys), fits, token)
  }

  function Authenticated(agents: map<string, Stored>, index: map<string, string>, fits: Matcher, token: string): Option<Agent> {
    var prefix := TokenPrefix(token);
    if prefix in index && index[prefix] in agents && Fits(fits, agents[index[prefix]], token)
    then Some(Public(agents[index[prefix]].r))
    else FullScan(agents, fits, token)
  }

  lemma {:induction false} ScannedFits(agents: map<string, Stored>, keys: seq<string>, fits: Matcher, token: string)
    requires forall k <- keys :: k in agents
    ensures Scanned(agents, keys, fits, token).Some? <==> exists k <- keys :: Fits(fits, agents[k], token)
    ensures Scanned(agents, keys, fits, token).Some? ==>
            exists k <- keys :: Fits(fits, agents[k], token) && Scanned(agents, keys, fits, token) == Some(Public(agents[k].r))
  {
    if keys != [] {
      assert keys == [keys[0]] + keys[1..];
      ScannedFits(agents, keys[1..], fits, token);
    }
  }

  /** Whatever the index holds - colliding, overwritten, stale or missing entries - authentication
      succeeds exactly when some record fits, and with at most one fitting record it returns what the
      full scan returns. */
  lemma IndexIsTransparent(agents: map<string, Stored>, index: map<string, string>, fits: Matcher, token: string)
    ensures Authenticated(agents, index, fits, token).Some? <==> FullScan(agents, fits, token).Some?
    ensures Authenticated(agents, index, fits, token).Some? <==> exists k <- agents :: Fits(fits, agents[k], token)
    ensures Unique(agents, fits, token) ==> Authenticated(agents, index, fits, token) == FullScan(agents, fits, token)
  {
    var keys := Sorted(agents.Keys);
    ScannedFits(agents, keys, fits, token);
    var prefix := TokenPrefix(token);
    if prefix in index && index[prefix] in agents && Fits(fits, agents[index[prefix]], token) {
      assert index[prefix] in keys;
    }
  }

  /** The index never matters, whatever it holds, exactly when the records that fit the token do not
      differ in what they show. */
  lemma IndexNeverMattersIff(agents: map<string, Stored>, fits: Matcher, token: string)
    ensures (forall index :: Authenticated(agents, index, fits, token) == FullScan(agents, fits, token))
       <==> forall x, y :: x in agents && y in agents && Fits(fits, agents[x], token) && Fits(fits, agents[y], token)
              ==> Public(agents[x].r) == Public(agents[y].r)
  {
    var keys := Sorted(agents.Keys);
    ScannedFits(agents, keys, fits, token);
    if forall index :: Authenticated(agents, index, fits, token) == FullScan(agents, fits, token) {
      forall x | x in agents && Fits(fits, agents[x], token)
        ensures FullScan(agents, fits, token) == Some(Public(agents[x].r))
      {
        var index := map[TokenPrefix(token) := x];
        assert Authenticated(agents, index, fits, token) == Some(Public(agents[x].r));
      }
    }
    if forall x, y :: x in agents && y in agents && Fits(fits, agents[x], token) && Fits(fits, agents[y], token)
         ==> Public(agents[x].r) == Public(agents[y].r)
    {
      forall index ensures Authenticated(agents, index, fits, token) == FullScan(agents, fits, token) {
        var prefix := TokenPrefix(token);
        if prefix in index && index[prefix] in agents && Fits(fits, agents[index[prefix]], token) {
          assert index[prefix] in keys;
        }
      }
    }
  }

  /** The first readable record in key order that fits the token shows the agent. */
  predicate FirstShown(agents: map<string, Stored>, fits: Matcher, token: string, k: string, agent: Agent) {
    && k in agents && Shows(agents[k], fits, token, agent)
    && forall j <- agents :: agents[j].Record? && fits(agents[j].r.tokenHash, token) ==> j == k || Less(k, j)
  }

  lemma {:induction false} ScannedLeast(agents: map<string, Stored>, keys: seq<string>, fits: Matcher, token: string)
    requires Ascends(keys) && forall k <- keys :: k in agents
    ensures var r := Scanned(agents, keys, fits, token);
            && (r.Some? ==> exists k <- keys :: Shows(agents[k], fits, token, r.value)
                              && forall j <- keys :: agents[j].Record? && fits(agents[j].r.tokenHash, token) ==> j == k || Less(k, j))
            && (r.None? ==> forall k <- keys :: agents[k].Record? ==> !fits(agents[k].r.tokenHash, token))
  {
    if keys != [] {
      assert keys == [keys[0]] + keys[1..];
      if Fits(fits, agents[keys[0]], token) {
        assert Shows(agents[keys[0]], fits, token, Scanned(agents, keys, fits, token).value);
        assert forall j <- keys :: j == keys[0] || Less(keys[0], j);
      } else {
        ScannedLeast(agents, keys[1..], fits, token);
      }
    }
  }

  lemma ScannedFirst(agents: map<string, Stored>, fits: Matcher, token: string)
    ensures var r := FullScan(agents, fits, token);
            && (r.Some? ==> exists k :: FirstShown(agents, fits, token, k, r.value))
            && (r.None? ==> forall k <- agents :: agents[k].Record? ==> !fits(agents[k].r.tokenHash, token))
  {
    var keys := Sorted(agents.Keys);
    ScannedLeast(agents, keys, fits, token);
    assert forall k <- agents :: k in keys;
    var r := Scanned(agents, keys, fits, token);
    if r.Some? {
      var k :| k in keys && Shows(agents[k], fits, token, r.value)
               && forall j <- keys :: agents[j].Record? && fits(agents[j].r.tokenHash, token) ==> j == k || Less(k, j);
      assert FirstShown(agents, fits, token, k, r.value);
    }
  }

  /** Whatever the index holds, a token authenticates as an agent whose stored record fits it, field by field,
      and is refused only if no readable record fits. */
  lemma AuthenticatedShows(agents: map<string, Stored>, index: map<string, string>, fits: Matcher, token: string)
    ensures var r := Authenticated(agents, index, fits, token);
            && (r.Some? ==> exists k <- agents :: Shows(agents[k], fits, token, r.value))
            && (r.None? ==> forall k <- agents :: agents[k].Record? ==> !fits(agents[k].r.tokenHash, token))
  {
    ScannedFirst(agents, fits, token);
  }

  lemma OthersAuthenticateAsBefore(agents: map<string, Stored>, index: map<string, string>, fits: Matcher,
                                   record: AgentRecord, token: string, t: string)
    requires !fits(record.tokenHash, t) && !FitsAt(agents, record.address, fits, t)
    ensures Authenticated(agents[record.address := Record(record)], index[TokenPrefix(token) := record.address], fits, t).Some?
       <==> Authenticated(agents, index, fits, t).Some?
  {
    var agents' := agents[record.address := Record(record)];
    IndexIsTransparent(agents, index, fits, t);
    IndexIsTransparent(agents', index[TokenPrefix(token) := record.address], fits, t);
    if k :| k in agents && Fits(fits, agents[k], t) {
      assert k in agents' && Fits(fits, agents'[k], t);
    }
    if k :| k in agents' && Fits(fits, agents'[k], t) {
      assert k in agents && Fits(fits, agents[k], t);
    }
  }
}
