/**
 * The per-user push-channel registry of controllers/asyncqueue.py.
 *
 * A socket is named by an id; whether a send on it fails is decided by a
 * caller-supplied set of failing ids. Every broadcast returns its delivery
 * log: one entry per send attempt, in the order the attempts were made.
 */
module Registry {
  import opened Wrappers

  type SocketId = nat
  type Username = string

  /** The JSON object handed to `send_json`: an event name and a one-field payload. */
  datatype Envelope = Envelope(event: string, payload: map<string, string>)

  /** The two outbound messages: a script to execute or HTML to render. */
  datatype Push = Script(code: string) | Html(html: string)

  /** One send attempt of a broadcast and whether it went through. */
  datatype Delivery = Delivery(socket: SocketId, envelope: Envelope, delivered: bool)

  /**
   * The envelope a broadcast sends: `{"event": "execute-js", "payload": {"code": ...}}`
   * for a script, `{"event": "render", "payload": {"html": ...}}` for HTML.
   */
  function ToEnvelope(p: Push): Envelope {
    match p
    case Script(code) => Envelope("execute-js", map["code" := code])
    case Html(html) => Envelope("render", map["html" := html])
  }

  /** How the browser reads an envelope back: the event name selects the payload field. */
  function FromEnvelope(e: Envelope): Option<Push> {
    if e.event == "execute-js" && e.payload.Keys == {"code"} then Some(Script(e.payload["code"]))
    else if e.event == "render" && e.payload.Keys == {"html"} then Some(Html(e.payload["html"]))
    else None
  }

  /** The browser recovers exactly the message the server pushed. */
  lemma EnvelopeRoundTrip(p: Push)
    ensures FromEnvelope(ToEnvelope(p)) == Some(p)
  {
  }

  /** The sockets of `s` that are not failing, in their original order. */
  function Healthy(s: seq<SocketId>, failing: set<SocketId>): seq<SocketId> {
    if s == [] then []
    else Healthy(s[..|s| - 1], failing) + (if s[|s| - 1] in failing then [] else [s[|s| - 1]])
  }

  /** One send attempt of `env` on each socket of `s`, in list order. */
  function Attempts(s: seq<SocketId>, env: Envelope, failing: set<SocketId>): seq<Delivery> {
    if s == [] then []
    else Attempts(s[..|s| - 1], env, failing) + [Delivery(s[|s| - 1], env, s[|s| - 1] !in failing)]
  }

  /** Python's `list.remove(x)` when `x` is present: drop the first occurrence only. */
  function RemoveFirst<T(==)>(s: seq<T>, x: T): seq<T> {
    if s == [] then []
    else if s[0] == x then s[1..]
    else [s[0]] + RemoveFirst(s[1..], x)
  }

  predicate Distinct<T(==)>(s: seq<T>) {
    forall i, j :: 0 <= i < j < |s| ==> s[i] != s[j]
  }

  /** The sockets registered under `u`, or none when `u` is not a key. */
  function SocketsOf(m: map<Username, seq<SocketId>>, u: Username): seq<SocketId> {
    if u in m then m[u] else []
  }

  /** The table after `add_websocket(ws, u)`. */
  function Added(m: map<Username, seq<SocketId>>, u: Username, ws: SocketId): map<Username, seq<SocketId>> {
    m[u := SocketsOf(m, u) + [ws]]
  }

  /** The table after `remove_websocket(ws, u)`. */
  function Removed(m: map<Username, seq<SocketId>>, u: Username, ws: SocketId): map<Username, seq<SocketId>> {
    if u !in m then m
    else if RemoveFirst(m[u], ws) == [] then m - {u}
    else m[u := RemoveFirst(m[u], ws)]
  }

  /** The table after one broadcast to `u`: its failing sockets are pruned, the key stays. */
  function Pruned(m: map<Username, seq<SocketId>>, u: Username, failing: set<SocketId>): map<Username, seq<SocketId>> {
    if u in m then m[u := Healthy(m[u], failing)] else m
  }

  /** The table after a broadcast to every user. */
  function PrunedAll(m: map<Username, seq<SocketId>>, failing: set<SocketId>): map<Username, seq<SocketId>> {
    map u | u in m :: Healthy(m[u], failing)
  }

  /** The table part-way through a broadcast to every user: the users of `done` are pruned. */
  function PrunedUpTo(m: map<Username, seq<SocketId>>, done: seq<Username>, failing: set<SocketId>): map<Username, seq<SocketId>> {
    map u | u in m :: if u in done then Healthy(m[u], failing) else m[u]
  }

  lemma PrunedUpToStep(m: map<Username, seq<SocketId>>, done: seq<Username>, u: Username, failing: set<SocketId>)
    requires u in m && u !in done
    ensures Pruned(PrunedUpTo(m, done, failing), u, failing) == PrunedUpTo(m, done + [u], failing)
    ensures SocketsOf(PrunedUpTo(m, done, failing), u) == SocketsOf(m, u)
  {
    assert Pruned(PrunedUpTo(m, done, failing), u, failing).Keys == PrunedUpTo(m, done + [u], failing).Keys;
  }

  /** One iteration of the broadcast-to-all loop. */
  lemma BroadcastAllStep(m: map<Username, seq<SocketId>>, users: seq<Username>, i: nat, env: Envelope, failing: set<SocketId>)
    requires OrderMatches(users, m) && i < |users|
    ensures users[i] in m
    ensures Pruned(PrunedUpTo(m, users[..i], failing), users[i], failing) == PrunedUpTo(m, users[..i + 1], failing)
    ensures SocketsOf(PrunedUpTo(m, users[..i], failing), users[i]) == SocketsOf(m, users[i])
    ensures AttemptsAll(users[..i + 1], m, env, failing) == AttemptsAll(users[..i], m, env, failing) + Attempts(SocketsOf(m, users[i]), env, failing)
  {
    assert users[..i + 1][..i] == users[..i];
    assert users[..i + 1] == users[..i] + [users[i]];
    assert users[i] !in users[..i];
    PrunedUpToStep(m, users[..i], users[i], failing);
  }

  lemma PrunedUpToAll(m: map<Username, seq<SocketId>>, users: seq<Username>, failing: set<SocketId>)
    requires forall u :: u in m ==> u in users
    ensures PrunedUpTo(m, users, failing) == PrunedAll(m, failing)
  {
  }

  /** The delivery log of a broadcast to every user, taking the users in `users` order. */
  function AttemptsAll(users: seq<Username>, m: map<Username, seq<SocketId>>, env: Envelope, failing: set<SocketId>): seq<Delivery> {
    if users == [] then []
    else AttemptsAll(users[..|users| - 1], m, env, failing) + Attempts(SocketsOf(m, users[|users| - 1]), env, failing)
  }

  /** Python dict order after `add_websocket`: a new key goes last. */
  function OrderAfterAdd(order: seq<Username>, m: map<Username, seq<SocketId>>, u: Username): seq<Username> {
    if u in m then order else order + [u]
  }

  /** Python dict order after `remove_websocket`: a deleted key leaves the order. */
  function OrderAfterRemove(order: seq<Username>, m: map<Username, seq<SocketId>>, u: Username, ws: SocketId): seq<Username> {
    if u in m && RemoveFirst(m[u], ws) == [] then RemoveFirst(order, u) else order
  }

  /** A socket survives pruning exactly when it was registered and its send did not fail. */
  lemma {:induction false} HealthyMembers(s: seq<SocketId>, failing: set<SocketId>, x: SocketId)
    ensures x in Healthy(s, failing) <==> x in s && x !in failing
  {
    if s != [] {
      HealthyMembers(s[..|s| - 1], failing, x);
      assert s == s[..|s| - 1] + [s[|s| - 1]];
    }
  }

  /** Pruning keeps order: it distributes over concatenation. */
  lemma {:induction false} HealthyAppend(a: seq<SocketId>, b: seq<SocketId>, failing: set<SocketId>)
    ensures Healthy(a + b, failing) == Healthy(a, failing) + Healthy(b, failing)
    decreases |b|
  {
    if b != [] {
      assert (a + b)[..|a + b| - 1] == a + b[..|b| - 1];
      HealthyAppend(a, b[..|b| - 1], failing);
    } else {
      assert a + b == a;
    }
  }

  /** Pruning a pruned list changes nothing. */
  lemma {:induction false} HealthyIdempotent(s: seq<SocketId>, failing: set<SocketId>)
    ensures Healthy(Healthy(s, failing), failing) == Healthy(s, failing)
  {
    if s != [] {
      var init, last := s[..|s| - 1], s[|s| - 1];
      HealthyIdempotent(init, failing);
      var tail := if last in failing then [] else [last];
      HealthyAppend(Healthy(init, failing), tail, failing);
      assert Healthy(tail, failing) == tail by {
        if tail != [] { assert tail[..0] == []; }
      }
    }
  }

  /**
   * A second broadcast to the same user finds the pruned list and prunes
   * nothing more; the key stays even when the list has become empty.
   */
  lemma PrunedTwice(m: map<Username, seq<SocketId>>, u: Username, failing: set<SocketId>)
    ensures SocketsOf(Pruned(m, u, failing), u) == Healthy(SocketsOf(m, u), failing)
    ensures Pruned(Pruned(m, u, failing), u, failing) == Pruned(m, u, failing)
    ensures u in Pruned(m, u, failing) <==> u in m
  {
    if u in m {
      HealthyIdempotent(m[u], failing);
    }
  }

  /** A broadcast to a user without an entry sends nothing and leaves the table alone. */
  lemma BroadcastUnknownUser(m: map<Username, seq<SocketId>>, u: Username, env: Envelope, failing: set<SocketId>)
    requires u !in m
    ensures Pruned(m, u, failing) == m
    ensures Attempts(SocketsOf(m, u), env, failing) == []
  {
  }

  /** A broadcast to one user leaves every other user's list as it was and adds or removes no key. */
  lemma BroadcastTouchesOneUser(m: map<Username, seq<SocketId>>, u: Username, failing: set<SocketId>, v: Username)
    requires v != u
    ensures Pruned(m, u, failing).Keys == m.Keys
    ensures v in m ==> Pruned(m, u, failing)[v] == m[v]
  {
  }

  /**
   * Every socket of the list gets exactly one attempt, in list order, and an
   * attempt is delivered exactly when that socket is not failing.
   */
  lemma {:induction false} AttemptsShape(s: seq<SocketId>, env: Envelope, failing: set<SocketId>)
    ensures |Attempts(s, env, failing)| == |s|
    ensures forall k :: 0 <= k < |s| ==>
              Attempts(s, env, failing)[k] == Delivery(s[k], env, s[k] !in failing)
  {
    if s != [] {
      AttemptsShape(s[..|s| - 1], env, failing);
    }
  }

  /** One iteration of the broadcast loop: the next socket of the snapshot is kept or pruned. */
  lemma PruneStep(snapshot: seq<SocketId>, i: nat, failing: set<SocketId>)
    requires i < |snapshot|
    ensures var cur := Healthy(snapshot[..i], failing) + snapshot[i..];
            (if snapshot[i] in failing then RemoveFirst(cur, snapshot[i]) else cur)
              == Healthy(snapshot[..i + 1], failing) + snapshot[i + 1..]
  {
    var ws := snapshot[i];
    var h := Healthy(snapshot[..i], failing);
    assert snapshot[..i + 1][..i] == snapshot[..i];
    assert snapshot[i..] == [ws] + snapshot[i + 1..];
    assert h + snapshot[i..] == h + [ws] + snapshot[i + 1..];
    if ws in failing {
      HealthyMembers(snapshot[..i], failing, ws);
      RemoveFirstAfter(h, ws, snapshot[i + 1..]);
    }
  }

  /** Removing an element that the prefix does not hold removes it right after the prefix. */
  lemma {:induction false} RemoveFirstAfter<T>(a: seq<T>, x: T, b: seq<T>)
    requires x !in a
    ensures RemoveFirst(a + [x] + b, x) == a + b
  {
    if a != [] {
      assert (a + [x] + b)[1..] == a[1..] + [x] + b;
      RemoveFirstAfter(a[1..], x, b);
    }
  }

  /** `list.remove(x)` takes away one copy of `x` and nothing else. */
  lemma {:induction false} RemoveFirstMultiset<T>(s: seq<T>, x: T)
    ensures multiset(RemoveFirst(s, x)) == multiset(s) - multiset{x}
  {
    if s != [] {
      assert s == [s[0]] + s[1..];
      RemoveFirstMultiset(s[1..], x);
    }
  }

  /** In a list without repeats, removing `y` leaves exactly the other elements, still without repeats. */
  lemma {:induction false} RemoveFirstDistinct<T>(s: seq<T>, y: T)
    requires Distinct(s)
    ensures Distinct(RemoveFirst(s, y))
    ensures forall x :: x in RemoveFirst(s, y) <==> x in s && x != y
  {
    if s != [] {
      assert Distinct(s[1..]) by {
        forall i, j | 0 <= i < j < |s[1..]| ensures s[1..][i] != s[1..][j] {
          assert s[1..][i] == s[i + 1] && s[1..][j] == s[j + 1];
        }
      }
      RemoveFirstDistinct(s[1..], y);
      if s[0] != y {
        var r := RemoveFirst(s[1..], y);
        assert s[0] !in s[1..] by {
          forall k | 0 <= k < |s[1..]| ensures s[1..][k] != s[0] { assert s[1..][k] == s[k + 1]; }
        }
        assert Distinct([s[0]] + r) by {
          forall i, j | 0 <= i < j < |[s[0]] + r| ensures ([s[0]] + r)[i] != ([s[0]] + r)[j] {
            if i == 0 { assert ([s[0]] + r)[j] == r[j - 1]; assert r[j - 1] in r; }
            else { assert ([s[0]] + r)[i] == r[i - 1] && ([s[0]] + r)[j] == r[j - 1]; }
          }
        }
      } else {
        forall k | 0 <= k < |s[1..]| ensures s[1..][k] != y { assert s[1..][k] == s[k + 1]; }
      }
    }
  }

  /**
   * Registering a socket for a user without an entry and then removing it
   * leaves the table as it was; for a user whose list is non-empty and does
   * not hold the socket, too.
   */
  lemma AddThenRemove(m: map<Username, seq<SocketId>>, u: Username, ws: SocketId)
    requires u !in m || (m[u] != [] && ws !in m[u])
    ensures Removed(Added(m, u, ws), u, ws) == m
  {
    if u in m {
      RemoveFirstAfter(m[u], ws, []);
      assert m[u] + [ws] + [] == m[u] + [ws];
      var added := Added(m, u, ws);
      assert RemoveFirst(added[u], ws) == m[u];
      assert Removed(added, u, ws) == added[u := m[u]];
      assert added[u := m[u]] == m;
    }
  }

  /**
   * The one case where the round trip does not restore the table: a user
   * whose list pruning has emptied loses the key altogether.
   */
  lemma AddThenRemoveEmpty(m: map<Username, seq<SocketId>>, u: Username, ws: SocketId)
    requires u in m && m[u] == []
    ensures Removed(Added(m, u, ws), u, ws) == m - {u}
  {
  }

  /**
   * Two sockets registered for a user, then the first one removed: the
   * user's list ends with the second one only added, and every other
   * user is untouched.
   */
  lemma AddTwiceRemoveFirst(m: map<Username, seq<SocketId>>, u: Username, c1: SocketId, c2: SocketId)
    requires c1 != c2 && c1 !in SocketsOf(m, u)
    ensures var r := Removed(Added(Added(m, u, c1), u, c2), u, c1);
      && u in r && r[u] == SocketsOf(m, u) + [c2]
      && forall v :: v != u ==> (v in r <==> v in m) && (v in m ==> r[v] == m[v])
  {
    var twice := Added(Added(m, u, c1), u, c2);
    assert twice[u] == SocketsOf(m, u) + [c1] + [c2];
    RemoveFirstAfter(SocketsOf(m, u), c1, [c2]);
  }

  /**
   * After a broadcast to `u`, a socket is still registered for `u` exactly
   * when it was before and its send did not fail.
   */
  lemma FailedSocketGone(m: map<Username, seq<SocketId>>, u: Username, failing: set<SocketId>, x: SocketId)
    ensures x in SocketsOf(Pruned(m, u, failing), u) <==> x in SocketsOf(m, u) && x !in failing
  {
    PrunedTwice(m, u, failing);
    HealthyMembers(SocketsOf(m, u), failing, x);
  }

  /** The table maps each user of `order` and no other; `order` has no repeats. */
  ghost predicate OrderMatches(order: seq<Username>, m: map<Username, seq<SocketId>>) {
    Distinct(order) && forall u :: u in m <==> u in order
  }

  class AsyncQueue {
    /** `user_websockets`: each user's sockets, in registration order. */
    var userWebsockets: map<Username, seq<SocketId>>
    /** The insertion order of the keys of `user_websockets` (Python dicts keep it). */
    var order: seq<Username>

    ghost predicate Valid()
      reads this
    {
      OrderMatches(order, userWebsockets)
    }

    constructor ()
      ensures Valid() && userWebsockets == map[] && order == []
    {
      userWebsockets := map[];
      order := [];
    }

    /** Registers `ws` at the end of the user's list, creating the entry if needed. No duplicate check. */
    method AddWebsocket(ws: SocketId, username: Username)
      requires Valid()
      modifies this
      ensures Valid()
      ensures userWebsockets == Added(old(userWebsockets), username, ws)
      ensures order == OrderAfterAdd(old(order), old(userWebsockets), username)
    {
      if username !in userWebsockets {
        userWebsockets := userWebsockets[username := []];
        order := order + [username];
      }
      userWebsockets := userWebsockets[username := userWebsockets[username] + [ws]];
    }

    /**
     * Removes the first occurrence of `ws` from the user's list, then deletes
     * the user's key when the list is empty, whether `ws` was there or not.
     */
    method RemoveWebsocket(ws: SocketId, username: Username)
      requires Valid()
      modifies this
      ensures Valid()
      ensures userWebsockets == Removed(old(userWebsockets), username, ws)
      ensures order == OrderAfterRemove(old(order), old(userWebsockets), username, ws)
    {
      if username in userWebsockets {
        if ws in userWebsockets[username] {
          userWebsockets := userWebsockets[username := RemoveFirst(userWebsockets[username], ws)];
        } else {
          RemoveFirstAbsent(userWebsockets[username], ws);
        }
        if userWebsockets[username] == [] {
          RemoveFirstDistinct(order, username);
          userWebsockets := userWebsockets - {username};
          order := RemoveFirst(order, username);
        }
      }
    }

    /**
     * The loop shared by `broadcast_js_to_user` and `broadcast_html_to_user`:
     * one attempt per socket of a snapshot of the user's list, pruning each
     * socket whose send fails.
     */
    method SendToUser(env: Envelope, username: Username, failing: set<SocketId>) returns (log: seq<Delivery>)
      requires Valid()
      modifies this
      ensures Valid() && order == old(order)
      ensures userWebsockets == Pruned(old(userWebsockets), username, failing)
      ensures log == Attempts(SocketsOf(old(userWebsockets), username), env, failing)
    {
      log := [];
      if username in userWebsockets {
        var snapshot := userWebsockets[username];
        var i := 0;
        assert userWebsockets[username := snapshot] == userWebsockets;
        assert Healthy(snapshot[..0], failing) + snapshot[0..] == snapshot;
        while i < |snapshot|
          invariant 0 <= i <= |snapshot|
          invariant order == old(order)
          invariant userWebsockets == old(userWebsockets)[username := Healthy(snapshot[..i], failing) + snapshot[i..]]
          invariant log == Attempts(snapshot[..i], env, failing)
        {
          var ws := snapshot[i];
          PruneStep(snapshot, i, failing);
          if ws in failing {
            userWebsockets := userWebsockets[username := RemoveFirst(userWebsockets[username], ws)];
            log := log + [Delivery(ws, env, false)];
          } else {
            log := log + [Delivery(ws, env, true)];
          }
          assert snapshot[..i + 1][..i] == snapshot[..i];
          i := i + 1;
        }
        assert snapshot[..i] == snapshot;
        assert snapshot[i..] == [];
        assert Healthy(snapshot[..i], failing) + snapshot[i..] == Healthy(snapshot, failing);
      }
    }

    /** `broadcast_js_to_user`: sends `{"event": "execute-js", "payload": {"code": jsCode}}`. */
    method BroadcastJsToUser(jsCode: string, username: Username, failing: set<SocketId>) returns (log: seq<Delivery>)
      requires Valid()
      modifies this
      ensures Valid() && order == old(order)
      ensures userWebsockets == Pruned(old(userWebsockets), username, failing)
      ensures log == Attempts(SocketsOf(old(userWebsockets), username), ToEnvelope(Script(jsCode)), failing)
    {
      log := SendToUser(ToEnvelope(Script(jsCode)), username, failing);
    }

    /** `broadcast_html_to_user`: sends `{"event": "render", "payload": {"html": html}}`. */
    method BroadcastHtmlToUser(html: string, username: Username, failing: set<SocketId>) returns (log: seq<Delivery>)
      requires Valid()
      modifies this
      ensures Valid() && order == old(order)
      ensures userWebsockets == Pruned(old(userWebsockets), username, failing)
      ensures log == Attempts(SocketsOf(old(userWebsockets), username), ToEnvelope(Html(html)), failing)
    {
      log := SendToUser(ToEnvelope(Html(html)), username, failing);
    }

    /** The loop shared by `broadcast_js` and `broadcast_html`: every key, in dict order. */
    method SendToAll(env: Envelope, failing: set<SocketId>) returns (log: seq<Delivery>)
      requires Valid()
      modifies this
      ensures Valid() && order == old(order)
      ensures userWebsockets == PrunedAll(old(userWebsockets), failing)
      ensures log == AttemptsAll(old(order), old(userWebsockets), env, failing)
    {
      log := [];
      var users := order;
      var i := 0;
      while i < |users|
        invariant 0 <= i <= |users|
        invariant Valid() && order == users == old(order)
        invariant userWebsockets == PrunedUpTo(old(userWebsockets), users[..i], failing)
        invariant log == AttemptsAll(users[..i], old(userWebsockets), env, failing)
      {
        var u := users[i];
        BroadcastAllStep(old(userWebsockets), users, i, env, failing);
        var more := SendToUser(env, u, failing);
        log := log + more;
        i := i + 1;
      }
      assert users[..i] == users;
      PrunedUpToAll(old(userWebsockets), users, failing);
    }

    /** `broadcast_js`: `broadcast_js_to_user` for every registered user. */
    method BroadcastJs(jsCode: string, failing: set<SocketId>) returns (log: seq<Delivery>)
      requires Valid()
      modifies this
      ensures Valid() && order == old(order)
      ensures userWebsockets == PrunedAll(old(userWebsockets), failing)
      ensures log == AttemptsAll(old(order), old(userWebsockets), ToEnvelope(Script(jsCode)), failing)
    {
      log := SendToAll(ToEnvelope(Script(jsCode)), failing);
    }

    /** `broadcast_html`: `broadcast_html_to_user` for every registered user. */
    method BroadcastHtml(html: string, failing: set<SocketId>) returns (log: seq<Delivery>)
      requires Valid()
      modifies this
      ensures Valid() && order == old(order)
      ensures userWebsockets == PrunedAll(old(userWebsockets), failing)
      ensures log == AttemptsAll(old(order), old(userWebsockets), ToEnvelope(Html(html)), failing)
    {
      log := SendToAll(ToEnvelope(Html(html)), failing);
    }
  }

  /** `list.remove` is only called when the element is present; otherwise the list is untouched. */
  lemma {:induction false} RemoveFirstAbsent<T>(s: seq<T>, x: T)
    requires x !in s
    ensures RemoveFirst(s, x) == s
  {
    if s != [] {
      RemoveFirstAbsent(s[1..], x);
    }
  }
}
