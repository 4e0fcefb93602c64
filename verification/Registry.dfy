/** The session registry: a map behind a mutex, and the counter ids are made from. */
module Registry {
  import opened Wrappers
  import opened JsonValues
  import opened SessionIds
  import opened Protocol

  const MAX_CONNECTIONS := 1000
  const MAX_SESSION_ID_RETRIES := 3

  /** Which turn of the retry loop a registration is in. */
  type Attempt = x: nat | x < MAX_SESSION_ID_RETRIES

  datatype EmplaceResult = Success | MaxConnections | Collision

  /** The map behind the registry's mutex, and the counter ids are made from. */
  datatype Directory<V> = Directory(entries: map<string, V>, counter: nat)

  /** What the locked section of a registration makes of an id. */
  function Emplacement<V>(entries: map<string, V>, id: string): EmplaceResult {
    if |entries| >= MAX_CONNECTIONS then MaxConnections else if id in entries then Collision else Success
  }

  /** What a register call leaves in the map, the id it returns ("" if none), and how many ids it used. */
  datatype Registration<V> = Registration(entries: map<string, V>, id: string, used: nat)

  /** The retry loop of register_session over the ids the generator would return. */
  function TryRegister<V>(entries: map<string, V>, v: V, ids: seq<string>): Registration<V> {
    if ids == [] then Registration(entries, "", 0)
    else if ids[0] == "" || |ids[0]| > MAX_SESSION_ID_LENGTH || |entries| >= MAX_CONNECTIONS then
      Registration(entries, "", 1)
    else if ids[0] in entries then
      var r := TryRegister(entries, v, ids[1..]);
      r.(used := r.used + 1)
    else Registration(entries[ids[0] := v], ids[0], 1)
  }

  /** One turn of the loop. */
  lemma TryNext<V>(entries: map<string, V>, v: V, ids: seq<string>, k: nat)
    requires k < |ids|
    ensures TryRegister(entries, v, ids[k..])
            == if ids[k] == "" || |ids[k]| > MAX_SESSION_ID_LENGTH || |entries| >= MAX_CONNECTIONS then
                 Registration(entries, "", 1)
               else if ids[k] in entries then
                 var r := TryRegister(entries, v, ids[k + 1..]);
                 r.(used := r.used + 1)
               else Registration(entries[ids[k] := v], ids[k], 1)
  {
    assert ids[k..][0] == ids[k] && ids[k..][1..] == ids[k + 1..];
  }

  /** The ids three consecutive calls of the generator return. */
  function Candidates(counter: nat, rnds: seq<uint32>): seq<string>
    requires |rnds| == MAX_SESSION_ID_RETRIES
  {
    [SessionId(counter, rnds[0]), SessionId(counter + 1, rnds[1]), SessionId(counter + 2, rnds[2])]
  }

  lemma CandidateAt(counter: nat, rnds: seq<uint32>, k: nat)
    requires |rnds| == MAX_SESSION_ID_RETRIES && k < |rnds|
    ensures |Candidates(counter, rnds)| == MAX_SESSION_ID_RETRIES
    ensures Candidates(counter, rnds)[k] == SessionId(counter + k, rnds[k])
  {
  }

  function UnregisterSession<V>(d: Directory<V>, id: string): Directory<V> {
    d.(entries := d.entries - {id})
  }

  /** Whatever the generator returns, a call nobody interferes with adds one fresh valid key or changes nothing. */
  lemma {:induction false} RegisterAddsOneOrNothing<V>(entries: map<string, V>, v: V, ids: seq<string>)
    ensures var r := TryRegister(entries, v, ids);
            && (r.id == "" ==> r.entries == entries)
            && (r.id != "" ==> r.id in ids && r.id !in entries && |r.id| <= 128
                               && r.entries == entries[r.id := v] && |entries| < 1000)
            && r.used <= |ids|
  {
    if ids == [] {
    } else {
      RegisterAddsOneOrNothing(entries, v, ids[1..]);
    }
  }

  /** Such a call fails exactly when the map is full or every candidate up to the first unusable one is taken. */
  lemma {:induction false} RegisterFailsExactly<V>(entries: map<string, V>, v: V, ids: seq<string>)
    requires forall k :: 0 <= k < |ids| ==> 1 <= |ids[k]| <= 128
    ensures TryRegister(entries, v, ids).id == ""
            <==> |entries| >= 1000 || forall k :: 0 <= k < |ids| ==> ids[k] in entries
  {
    if ids == [] {
    } else {
      RegisterFailsExactly(entries, v, ids[1..]);
      if ids[0] in entries {
        if forall k :: 0 <= k < |ids[1..]| ==> ids[1..][k] in entries {
          forall k | 0 <= k < |ids| ensures ids[k] in entries {
            if k > 0 { assert ids[k] == ids[1..][k - 1]; }
          }
        }
      }
    }
  }

  /** Without the bound on the counter uniqueness is gone: 2^32 registrations later an id can come back. */
  lemma CounterWrapRepeatsIds(rnd: uint32)
    ensures SessionId(0, rnd) == SessionId(TWO_TO_THE_32, rnd)
  {
    IdsEqualExactly(0, rnd, TWO_TO_THE_32, rnd);
  }
}
