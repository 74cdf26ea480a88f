/** The controller's pool of connections, per key and host. */
module ConnectionPools {
  import opened NestedMaps

  type Key = string

  type Host = string

  /** The number of the dial that started a service; its cancel function goes by the same number. */
  type Service = nat

  type Conns = Nested<Key, Host, Service>

  type Places = map<Service, (Key, Host)>

  /** The service at one place of the pool, if any. */
  function At(conns: Conns, key: Key, host: Host): (s: set<Service>) {
    if host in Inner(conns, key) then {Inner(conns, key)[host]} else {}
  }

  /** The other keys are untouched. */
  ghost predicate SameElsewhere(conns: Conns, conns': Conns, key: Key) {
    forall k :: k != key ==> Inner(conns', k) == Inner(conns, k)
  }

  lemma SameElsewhereTransitive(a: Conns, b: Conns, c: Conns, key: Key)
    requires SameElsewhere(a, b, key) && SameElsewhere(b, c, key)
    ensures SameElsewhere(a, c, key)
  {
  }

  lemma SameElsewhereReflexive(a: Conns, key: Key)
    ensures SameElsewhere(a, a, key)
  {
  }

  ghost predicate Holds(conns: Conns, k: Key, h: Host, s: Service) {
    h in Inner(conns, k) && Inner(conns, k)[h] == s
  }

  /** `pooled` says where each service of the pool is: at one place only. */
  ghost predicate Matches(conns: Conns, pooled: Places) {
    forall k, h, s: nat :: Holds(conns, k, h, s) <==> s in pooled && pooled[s] == (k, h)
  }

  lemma MatchesWith(conns: Conns, pooled: Places, key: Key, host: Host, s: Service)
    requires Matches(conns, pooled) && s !in pooled
    ensures Matches(With(conns, key, host, s), (pooled - At(conns, key, host))[s := (key, host)])
  {
    hide With, Inner, Pruned;
    InnerWith(conns, key, host, s);
    var conns' := With(conns, key, host, s);
    var pooled' := (pooled - At(conns, key, host))[s := (key, host)];
    forall k, h, z: nat ensures Holds(conns', k, h, z) <==> z in pooled' && pooled'[z] == (k, h) {
      assert Holds(conns', k, h, z) <==> if (k, h) == (key, host) then z == s else Holds(conns, k, h, z);
      assert Holds(conns, k, h, z) <==> z in pooled && pooled[z] == (k, h);
      assert Holds(conns, key, host, z) <==> z in pooled && pooled[z] == (key, host);
    }
  }

  lemma WithIs(conns: Conns, key: Key, host: Host, s: Service)
    ensures With(conns, key, host, s) == conns[key := Inner(conns, key)[host := s]]
  {
  }

  lemma MatchesWithout(conns: Conns, pooled: Places, key: Key, host: Host)
    requires Matches(conns, pooled) && host in Inner(conns, key)
    ensures Matches(Without(conns, key, host), pooled - {Inner(conns, key)[host]})
  {
    hide Without, Inner, Pruned;
    InnerWithout(conns, key, host);
    var conns', gone := Without(conns, key, host), Inner(conns, key)[host];
    forall k, h, z: nat ensures Holds(conns', k, h, z) <==> z in pooled - {gone} && pooled[z] == (k, h) {
      assert Holds(conns', k, h, z) <==> (k, h) != (key, host) && Holds(conns, k, h, z);
      assert Holds(conns, k, h, z) <==> z in pooled && pooled[z] == (k, h);
      assert Holds(conns, key, host, gone);
    }
  }

  lemma MatchesDrop(conns: Conns, pooled: Places, key: Key)
    requires Matches(conns, pooled)
    ensures Matches(conns - {key}, pooled - Inner(conns, key).Values)
  {
    hide Inner;
    InnerDrop(conns, key);
    var pooled' := pooled - Inner(conns, key).Values;
    forall k, h, z: nat ensures Holds(conns - {key}, k, h, z) <==> z in pooled' && pooled'[z] == (k, h) {
      assert Holds(conns - {key}, k, h, z) <==> k != key && Holds(conns, k, h, z);
      assert Holds(conns, k, h, z) <==> z in pooled && pooled[z] == (k, h);
      if z in pooled && z in Inner(conns, key).Values {
        var l :| l in Inner(conns, key) && Inner(conns, key)[l] == z;
        assert Holds(conns, key, l, z);
      }
      if k == key && Holds(conns, k, h, z) {
        assert z in Inner(conns, key).Values;
      }
    }
  }

  lemma MatchesAt(conns: Conns, pooled: Places, key: Key, host: Host)
    requires Matches(conns, pooled) && host in Inner(conns, key)
    ensures Inner(conns, key)[host] in pooled
  {
    assert Holds(conns, key, host, Inner(conns, key)[host]);
  }

  lemma MatchesValues(conns: Conns, pooled: Places, key: Key)
    requires Matches(conns, pooled)
    ensures Inner(conns, key).Values <= pooled.Keys
  {
    forall h | h in Inner(conns, key) ensures Inner(conns, key)[h] in pooled {
      MatchesAt(conns, pooled, key, h);
    }
  }

  lemma AllCancelled(conns: Conns, pooled: Places, done: set<Service>)
    requires Matches(conns, pooled) && done <= pooled.Keys
    requires forall k :: k in conns ==> conns[k].Values <= done
    ensures done == pooled.Keys
  {
    forall s | s in pooled ensures s in done {
      assert Holds(conns, pooled[s].0, pooled[s].1, s);
    }
  }

  lemma EmptyMatches()
    ensures Matches(map[], map[])
  {
  }

  /** Every dialled connection is in the pool, or was cancelled, or was overwritten, and only one of these. */
  ghost predicate Accounted(dials: nat, dialled: set<Service>, cancelled: set<Service>, pooled: set<Service>,
                            overwritten: set<Service>)
  {
    && (forall s :: s in dialled ==> s < dials)
    && cancelled <= dialled
    && dialled - cancelled == pooled + overwritten
    && pooled !! overwritten
  }

  /** Pooled connections that are cancelled leave the pool. */
  lemma AccountedCancel(dials: nat, dialled: set<Service>, cancelled: set<Service>, pooled: Places,
                        overwritten: set<Service>, s: set<Service>)
    requires Accounted(dials, dialled, cancelled, pooled.Keys, overwritten) && s <= pooled.Keys
    ensures Accounted(dials, dialled, cancelled + s, (pooled - s).Keys, overwritten)
  {
    assert (pooled - s).Keys == pooled.Keys - s;
  }

  lemma AccountedFail(dials: nat, dialled: set<Service>, cancelled: set<Service>, pooled: set<Service>,
                      overwritten: set<Service>)
    requires Accounted(dials, dialled, cancelled, pooled, overwritten)
    ensures Accounted(dials + 1, dialled, cancelled, pooled, overwritten)
  {
  }

  lemma AccountedDisjoint(dials: nat, dialled: set<Service>, cancelled: set<Service>, pooled: set<Service>,
                          overwritten: set<Service>)
    requires Accounted(dials, dialled, cancelled, pooled, overwritten)
    ensures pooled !! overwritten
  {
  }

  /** A new connection takes a place in the pool, possibly that of another one. */
  lemma AccountedDial(dials: nat, dialled: set<Service>, cancelled: set<Service>, pooled: Places,
                      overwritten: set<Service>, place: (Key, Host), gone: set<Service>)
    requires Accounted(dials, dialled, cancelled, pooled.Keys, overwritten) && gone <= pooled.Keys
    ensures Accounted(dials + 1, dialled + {dials}, cancelled, (pooled - gone)[dials := place].Keys, overwritten + gone)
    ensures dials !in pooled
  {
    assert dials !in dialled;
    assert (pooled - gone)[dials := place].Keys == pooled.Keys - gone + {dials};
  }

  function SetOf(hosts: seq<Host>): (s: set<Host>) {
    set h | h in hosts
  }

  ghost predicate NoDuplicates(hosts: seq<Host>) {
    forall i, j :: 0 <= i < j < |hosts| ==> hosts[i] != hosts[j]
  }

  /** The items of `a` that are not in `b`, in order and with their repeats. */
  function Minus(a: seq<Host>, b: set<Host>): (diff: seq<Host>)
    ensures forall h :: h in diff <==> h in a && h !in b
  {
    if a == [] then []
    else
      var diff := Minus(a[..|a| - 1], b);
      if a[|a| - 1] in b then diff else diff + [a[|a| - 1]]
  }

  lemma {:induction false} MinusNoDuplicates(a: seq<Host>, b: set<Host>)
    requires NoDuplicates(a)
    ensures NoDuplicates(Minus(a, b))
    decreases |a|
  {
    if a != [] {
      MinusNoDuplicates(a[..|a| - 1], b);
    }
  }

  /** `setDifference`. */
  method SetDifference(a: seq<Host>, b: seq<Host>) returns (diff: seq<Host>)
    ensures diff == Minus(a, SetOf(b))
  {
    var m := {};
    for i := 0 to |b|
      invariant m == SetOf(b[..i])
    {
      m := m + {b[i]};
    }
    assert b[..|b|] == b;
    diff := [];
    for i := 0 to |a|
      invariant diff == Minus(a[..i], m)
    {
      assert a[..i + 1][..i] == a[..i];
      if a[i] !in m {
        diff := diff + [a[i]];
      }
    }
    assert a[..|a|] == a;
  }

  /** One call of ReconcileConnections, seen from the key it is about. */
  ghost predicate Attempted(before: map<Host, Service>, after: map<Host, Service>, want: seq<Host>, dialled: seq<Host>,
                            removed: set<Host>, ok: bool) {
    var missing := Minus(want, before.Keys);
    && dialled <= missing
    && (ok ==> dialled == missing && removed == before.Keys - SetOf(want))
    && (!ok ==> |dialled| < |missing| && removed == {})
    && after.Keys == before.Keys + SetOf(dialled) - removed
    && forall h :: h in before && h in after ==> after[h] == before[h]
  }

  /** What a call of ReconcileConnections does, one thing after the other. */
  datatype Event =
    | Dialled(host: Host, service: Service)
    | DialFailed(host: Host)
    | NewService(host: Host, service: Service)  // newServiceCb
    | OldService(host: Host)                    // oldServiceCb
    | Removed(host: Host)

  /** Each host is dialled and then, if there is a callback, reported, before the next one is dialled. */
  function DialTrace(hosts: seq<Host>, start: nat, callback: bool): (trace: seq<Event>) {
    if hosts == [] then []
    else
      var n := |hosts| - 1;
      DialTrace(hosts[..n], start, callback) + [Dialled(hosts[n], start + n)] +
      if callback then [NewService(hosts[n], start + n)] else []
  }

  /** Each host is reported, if there is a callback, and then removed. */
  function RemoveTrace(hosts: seq<Host>, callback: bool): (trace: seq<Event>) {
    if hosts == [] then []
    else
      var n := |hosts| - 1;
      RemoveTrace(hosts[..n], callback) + (if callback then [OldService(hosts[n])] else []) + [Removed(hosts[n])]
  }

  /** The calls of newServiceCb in a trace, in order. */
  function NewCalls(trace: seq<Event>): (calls: seq<Host>) {
    if trace == [] then []
    else
      var last := trace[|trace| - 1];
      NewCalls(trace[..|trace| - 1]) + if last.NewService? then [last.host] else []
  }

  /** The calls of oldServiceCb in a trace, in order. */
  function OldCalls(trace: seq<Event>): (calls: seq<Host>) {
    if trace == [] then []
    else
      var last := trace[|trace| - 1];
      OldCalls(trace[..|trace| - 1]) + if last.OldService? then [last.host] else []
  }

  lemma CallsSnoc(trace: seq<Event>, e: Event)
    ensures NewCalls(trace + [e]) == NewCalls(trace) + if e.NewService? then [e.host] else []
    ensures OldCalls(trace + [e]) == OldCalls(trace) + if e.OldService? then [e.host] else []
  {
    assert (trace + [e])[..|trace|] == trace;
  }

  /** Every dialled host is reported exactly once, in order. */
  lemma {:induction false} CallsOfDials(hosts: seq<Host>, start: nat, callback: bool)
    ensures NewCalls(DialTrace(hosts, start, callback)) == if callback then hosts else []
    ensures OldCalls(DialTrace(hosts, start, callback)) == []
    decreases |hosts|
  {
    hide NewCalls, OldCalls;
    if hosts == [] {
      NoCalls();
    } else {
      var n := |hosts| - 1;
      var before, dialled := DialTrace(hosts[..n], start, callback), Dialled(hosts[n], start + n);
      CallsOfDials(hosts[..n], start, callback);
      CallsSnoc(before, dialled);
      CallsSnoc(before + [dialled], NewService(hosts[n], start + n));
      assert before + [dialled] + [] == before + [dialled];
    }
  }

  /** The calls of a whole trace: each dialled host is reported once, then each host that goes, before it is removed. */
  lemma {:induction false} CallsOfTrace(before: seq<Event>, hosts: seq<Host>, callback: bool)
    ensures NewCalls(before + RemoveTrace(hosts, callback)) == NewCalls(before)
    ensures OldCalls(before + RemoveTrace(hosts, callback)) == OldCalls(before) + if callback then hosts else []
    decreases |hosts|
  {
    hide NewCalls, OldCalls;
    if hosts == [] {
      assert before + RemoveTrace(hosts, callback) == before;
    } else {
      var n := |hosts| - 1;
      var init, h := before + RemoveTrace(hosts[..n], callback), hosts[n];
      CallsOfTrace(before, hosts[..n], callback);
      CallsSnoc(init, OldService(h));
      CallsSnoc(init + [OldService(h)], Removed(h));
      CallsSnoc(init, Removed(h));
      var last := if callback then [OldService(h)] else [];
      assert before + RemoveTrace(hosts, callback) == init + last + [Removed(h)];
      assert init + [] == init;
    }
  }

  lemma NoCalls()
    ensures NewCalls([]) == [] && OldCalls([]) == []
  {
  }

  /** One call of ReconcileConnections with what it did: the hosts it dialled and removed, in order, and the whole
      trace; `start` is the number of its first dial. */
  datatype Attempt = Attempt(before: map<Host, Service>, after: map<Host, Service>, dialled: seq<Host>,
                             removed: seq<Host>, start: nat, trace: seq<Event>)

  ghost predicate IsAttempt(a: Attempt, want: seq<Host>, newCb: bool, oldCb: bool, ok: bool) {
    && Attempted(a.before, a.after, want, a.dialled, SetOf(a.removed), ok)
    && NoDuplicates(a.removed)
    && a.trace == DialTrace(a.dialled, a.start, newCb) +
                  if ok then RemoveTrace(a.removed, oldCb)
                  else [DialFailed(Minus(want, a.before.Keys)[|a.dialled|])]
  }

  class ConnectionPool {
    /** Whether the i-th dial (and what precedes it) succeeds. */
    const answers: nat -> bool
    var dials: nat
    var conns: Conns
    var dialled: set<Service>            // the dials that succeeded
    var cancelled: set<Service>          // the cancel functions that were called
    ghost var pooled: map<Service, (Key, Host)>
    ghost var overwritten: set<Service>  // services whose place in the pool was taken by a later dial

    /** No key maps to an empty host map, and every dialled connection is accounted for. */
    ghost predicate Valid()
      reads this
    {
      Pruned(conns) && Matches(conns, pooled) && Accounted(dials, dialled, cancelled, pooled.Keys, overwritten)
    }

    constructor (answers: nat -> bool)
      ensures Valid() && conns == map[] && dialled == cancelled == overwritten == {} && this.answers == answers
    {
      this.answers, dials, conns, dialled, cancelled := answers, 0, map[], {}, {};
      pooled, overwritten := map[], {};
    }

    method GetConnectedHosts(key: Key) returns (hosts: seq<Host>)
      ensures SetOf(hosts) == Inner(conns, key).Keys && NoDuplicates(hosts)
    {
      hosts := [];
      if key !in conns {
        return;
      }
      var rest := conns[key].Keys;
      while rest != {}
        invariant SetOf(hosts) == conns[key].Keys - rest && rest <= conns[key].Keys
        invariant NoDuplicates(hosts)
      {
        var h :| h in rest;
        assert h !in SetOf(hosts);
        assert SetOf(hosts + [h]) == SetOf(hosts) + {h};
        hosts := hosts + [h];
        rest := rest - {h};
      }
    }

    method ResolveControlInterface(key: Key, host: Host) returns (found: bool, service: Service)
      ensures found <==> host in Inner(conns, key)
      ensures found ==> service == Inner(conns, key)[host]
    {
      if key !in conns {
        return false, 0;
      } else if host in conns[key] {
        return true, conns[key][host];
      }
      return false, 0;
    }

    /** The connection is cancelled and leaves the pool; a connection that is not there is left alone. */
    method RemoveConnection(key: Key, host: Host)
      requires Valid()
      modifies this
      ensures Valid()
      ensures Inner(conns, key) == Inner(old(conns), key) - {host}
      ensures SameElsewhere(old(conns), conns, key)
      ensures cancelled == old(cancelled) + At(old(conns), key, host)
      ensures dialled == old(dialled) && dials == old(dials) && overwritten == old(overwritten)
    {
      hide Pruned, Matches, Without, Accounted;
      if key !in conns {
        return;
      }
      var m := conns[key];
      if host !in m {
        return;
      }
      var service := m[host];
      MatchesWithout(conns, pooled, key, host);
      MatchesAt(conns, pooled, key, host);
      InnerWithout(conns, key, host);
      WithoutInSteps(conns, key, host, m - {host});
      AccountedCancel(dials, dialled, cancelled, pooled, overwritten, {service});
      cancelled := cancelled + {service};
      pooled := pooled - {service};
      m := m - {host};
      conns := conns[key := m];
      if |m| == 0 {
        conns := conns - {key};
      }
    }

    /** Every connection of the key is cancelled and leaves the pool. */
    method RemoveAllConnections(key: Key)
      requires Valid()
      modifies this
      ensures Valid() && Inner(conns, key) == map[]
      ensures SameElsewhere(old(conns), conns, key)
      ensures cancelled == old(cancelled) + Inner(old(conns), key).Values
      ensures dialled == old(dialled) && dials == old(dials) && overwritten == old(overwritten)
    {
      if key !in conns {
        return;
      }
      hide Pruned, Matches, Accounted;
      MatchesDrop(conns, pooled, key);
      MatchesValues(conns, pooled, key);
      AccountedCancel(dials, dialled, cancelled, pooled, overwritten, conns[key].Values);
      InnerDrop(conns, key);
      CancelAll(conns[key]);
      pooled := pooled - conns[key].Values;
      conns := conns - {key};
    }

    /** Calls the cancel function of every holder of a host map. */
    method CancelAll(m: map<Host, Service>)
      modifies this`cancelled
      ensures cancelled == old(cancelled) + m.Values
    {
      var rest := m.Keys;
      while rest != {}
        invariant rest <= m.Keys
        invariant cancelled == old(cancelled) + (set h | h in m && h !in rest :: m[h])
      {
        var h :| h in rest;
        ghost var done := m.Keys - rest;
        cancelled := cancelled + {m[h]};
        rest := rest - {h};
      }
      assert m.Values == set h | h in m :: m[h];
    }

    /** Every connection is cancelled and the pool is empty again. */
    method Close()
      requires Valid()
      modifies this
      ensures Valid() && conns == map[]
      ensures dialled == old(dialled) && dials == old(dials) && overwritten == old(overwritten)
      ensures cancelled == old(cancelled) + old(pooled).Keys && dialled - cancelled == overwritten
    {
      hide Matches;
      ghost var done: set<Service> := {};
      var rest := conns.Keys;
      while rest != {}
        invariant rest <= conns.Keys
        invariant forall k :: k in conns && k !in rest ==> conns[k].Values <= done
        invariant done <= pooled.Keys && cancelled == old(cancelled) + done
        invariant conns == old(conns) && pooled == old(pooled) && dialled == old(dialled)
        invariant dials == old(dials) && overwritten == old(overwritten)
      {
        var k :| k in rest;
        MatchesValues(conns, pooled, k);
        CancelAll(conns[k]);
        done := done + conns[k].Values;
        rest := rest - {k};
      }
      AllCancelled(conns, pooled, done);
      EmptyMatches();
      conns := map[];
      pooled := map[];
    }

    /** On success the host is pooled with a new service; whatever was there before is overwritten, not cancelled. */
    method DialControlService(key: Key, host: Host) returns (ok: bool, service: Service)
      requires Valid()
      modifies this
      ensures Valid() && ok == answers(old(dials)) && service == old(dials) && dials == old(dials) + 1
      ensures Inner(conns, key) == if ok then Inner(old(conns), key)[host := service] else Inner(old(conns), key)
      ensures SameElsewhere(old(conns), conns, key)
      ensures dialled == old(dialled) + (if ok then {service} else {}) && cancelled == old(cancelled)
      ensures overwritten == old(overwritten) + if ok then At(old(conns), key, host) else {}
      ensures At(old(conns), key, host) !! old(overwritten)
    {
      hide Pruned, Matches, With, Accounted;
      ghost var place, gone := (key, host), At(conns, key, host);
      if host in Inner(conns, key) {
        MatchesAt(conns, pooled, key, host);
      }
      AccountedDial(dials, dialled, cancelled, pooled, overwritten, place, gone);
      AccountedDisjoint(dials, dialled, cancelled, pooled.Keys, overwritten);
      ok, service := answers(dials), dials;
      dials := dials + 1;
      if !ok {
        AccountedFail(dials - 1, dialled, cancelled, pooled.Keys, overwritten);
        return;
      }
      MatchesWith(conns, pooled, key, host, service);
      InnerWith(conns, key, host, service);
      overwritten := overwritten + gone;
      pooled := (pooled - gone)[service := place];
      dialled := dialled + {service};
      var m: map<Host, Service> := map[];
      if key in conns {
        m := conns[key];
      } else {
        conns := conns[key := m];
      }
      m := m[host := service];
      UpdateTwice(old(conns), key, map[], m);
      conns := conns[key := m];
      WithIs(old(conns), key, host, service);
    }

    /** The first loop of ReconcileConnections: dials the hosts in order up to the first failure, and calls back after
        each dial. Dialling hosts that were not connected overwrites no service exactly when none is dialled twice. */
    method DialAll(key: Key, hosts: seq<Host>, newCb: bool) returns (ok: bool, n: nat, trace: seq<Event>)
      requires Valid()
      requires SetOf(hosts) !! Inner(conns, key).Keys
      modifies this
      ensures Valid() && n <= |hosts| && (ok <==> n == |hosts|)
      ensures DialsDone(Inner(old(conns), key), Inner(conns, key), hosts, n, old(dials))
      ensures trace == DialTrace(hosts[..n], old(dials), newCb) + if ok then [] else [DialFailed(hosts[n])]
      ensures ok <==> AllAnswered(answers, old(dials), |hosts|)
      ensures SameElsewhere(old(conns), conns, key)
      ensures cancelled == old(cancelled)
      ensures overwritten == old(overwritten) <==> NoDuplicates(hosts[..n])
    {
      hide *;
      n, trace := 0, [];
      NothingDone(Inner(conns, key), hosts, dials, newCb);
      NoneAnswered(answers, dials);
      SameElsewhereReflexive(conns, key);
      while n < |hosts|
        invariant Valid() && n <= |hosts| && dials == old(dials) + n
        invariant DialsDone(Inner(old(conns), key), Inner(conns, key), hosts, n, old(dials))
        invariant trace == DialTrace(hosts[..n], old(dials), newCb)
        invariant AllAnswered(answers, old(dials), n)
        invariant SameElsewhere(old(conns), conns, key)
        invariant cancelled == old(cancelled) && old(overwritten) <= overwritten
        invariant overwritten == old(overwritten) <==> NoDuplicates(hosts[..n])
      {
        ghost var here := conns;
        DialNext(Inner(old(conns), key), conns, key, hosts, n, old(dials), dials);
        AnsweredSnoc(answers, old(dials), n, |hosts|);
        DialTraceSnoc(hosts, n, old(dials), newCb);
        var answered, service := DialControlService(key, hosts[n]);
        SameElsewhereTransitive(old(conns), here, conns, key);
        if !answered {
          trace := trace + [DialFailed(hosts[n])];
          return false, n, trace;
        }
        trace := trace + [Dialled(hosts[n], service)];
        if newCb {
          trace := trace + [NewService(hosts[n], service)];
        }
        n := n + 1;
      }
      ok := true;
      assert trace + [] == trace;
    }

    /** The second loop of ReconcileConnections: calls back for each host, then removes it. */
    method RemoveOld(key: Key, hosts: seq<Host>, oldCb: bool) returns (trace: seq<Event>)
      requires Valid()
      modifies this
      ensures Valid()
      ensures Inner(conns, key) == Inner(old(conns), key) - SetOf(hosts)
      ensures SameElsewhere(old(conns), conns, key)
      ensures var gone := set h | h in hosts && h in Inner(old(conns), key) :: Inner(old(conns), key)[h];
              cancelled == old(cancelled) + gone
      ensures dialled == old(dialled) && dials == old(dials) && overwritten == old(overwritten)
      ensures trace == RemoveTrace(hosts, oldCb)
    {
      hide *;
      trace := [];
      EmptyPrefix(hosts);
      NothingRemoved(hosts, oldCb);
      SameElsewhereReflexive(conns, key);
      ghost var before := Inner(conns, key);
      for n := 0 to |hosts|
        invariant Valid() && trace == RemoveTrace(hosts[..n], oldCb)
        invariant Inner(conns, key) == before - SetOf(hosts[..n])
        invariant SameElsewhere(old(conns), conns, key)
        invariant forall s :: s in cancelled <==>
                    s in old(cancelled) || exists h :: h in hosts[..n] && h in before && before[h] == s
        invariant dialled == old(dialled) && dials == old(dials) && overwritten == old(overwritten)
      {
        PrefixSnoc(hosts, n);
        RemoveTraceSnoc(hosts, n, oldCb);
        if oldCb {
          trace := trace + [OldService(hosts[n])];
        }
        AtElement(conns, key, hosts[n]);
        ghost var here := conns;
        RemoveConnection(key, hosts[n]);
        trace := trace + [Removed(hosts[n])];
        SameElsewhereTransitive(old(conns), here, conns, key);
      }
      assert hosts[..|hosts|] == hosts;
    }

    method GetServices(key: Key) returns (services: map<Host, Service>)
      ensures services == Inner(conns, key)
    {
      services := map[];
      if key !in conns {
        return;
      }
      var m := conns[key];
      var rest := m.Keys;
      while rest != {}
        invariant rest <= m.Keys && services.Keys == m.Keys - rest
        invariant forall h :: h in services ==> services[h] == m[h]
      {
        var h :| h in rest;
        services := services[h := m[h]];
        rest := rest - {h};
      }
    }

    /** `ReconcileConnections`. It fails exactly when a dial fails, and then nothing was removed; on success exactly the
        unwanted hosts are cancelled, each after its callback; other keys are never touched; the callback for a new
        service comes right after its dial; and no service is leaked exactly when no host was dialled twice. */
    method ReconcileConnections(key: Key, want: seq<Host>, newCb: bool, oldCb: bool)
        returns (services: map<Host, Service>, ok: bool, trace: seq<Event>,
                 ghost newHosts: seq<Host>, ghost oldHosts: seq<Host>)
      requires Valid()
      modifies this
      ensures Valid()
      ensures IsAttempt(Attempt(Inner(old(conns), key), Inner(conns, key), newHosts, oldHosts, old(dials), trace),
                        want, newCb, oldCb, ok)
      ensures SetOf(oldHosts) <= Inner(old(conns), key).Keys
      ensures cancelled == old(cancelled) + (set h | h in SetOf(oldHosts) :: Inner(old(conns), key)[h])
      ensures ok <==> AllAnswered(answers, old(dials), |Minus(want, Inner(old(conns), key).Keys)|)
      ensures ok ==> services == Inner(conns, key)
      ensures HoldDials(Inner(conns, key), newHosts, old(dials))
      ensures SameElsewhere(old(conns), conns, key)
      ensures overwritten == old(overwritten) <==> NoDuplicates(newHosts)
    {
      hide Pruned, Matches, Accounted, Inner, Minus, SetOf, NoDuplicates, SameElsewhere, DialTrace, RemoveTrace;
      hide Attempted, HoldDials, DialsDone;
      services, oldHosts := map[], [];
      ghost var before := Inner(conns, key);
      var existing := GetConnectedHosts(key);
      var newConns := SetDifference(want, existing);
      var oldConns := SetDifference(existing, want);
      MinusNoDuplicates(existing, SetOf(want));
      MinusSet(want, before.Keys);
      MinusSet(existing, SetOf(want));
      var n;
      ok, n, trace := DialAll(key, newConns, newCb);
      ghost var mid := Inner(conns, key);
      newHosts := newConns[..n];
      DoneHolds(before, mid, newConns, n, old(dials));
      if !ok {
        FailureIsAttempt(before, mid, want, n);
        return;
      }
      assert newHosts == newConns;
      ghost var here := conns;
      oldHosts := oldConns;
      var removals := RemoveOld(key, oldConns, oldCb);
      trace := trace + removals;
      SameElsewhereTransitive(old(conns), here, conns, key);
      SuccessIsAttempt(before, mid, want);
      UnwantedServices(before, mid, existing, oldConns, want);
      HoldAfterRemoval(mid, newHosts, SetOf(oldHosts), old(dials));
      services := GetServices(key);
    }
  }

  /** Each of the hosts holds the service of a dial to it, counted from dial number `start`. */
  ghost predicate HoldDials(after: map<Host, Service>, hosts: seq<Host>, start: nat) {
    forall h :: h in hosts ==> h in after && start <= after[h] < start + |hosts| && hosts[after[h] - start] == h
  }

  /** The first `n` hosts are connected on top of those that were, which keep their services. */
  ghost predicate DialsDone(before: map<Host, Service>, after: map<Host, Service>, hosts: seq<Host>, n: nat, start: nat)
    requires n <= |hosts|
  {
    && after.Keys == before.Keys + SetOf(hosts[..n])
    && (forall h :: h in before ==> after[h] == before[h])
    && HoldDials(after, hosts[..n], start)
  }

  lemma NothingDone(before: map<Host, Service>, hosts: seq<Host>, start: nat, callback: bool)
    ensures DialsDone(before, before, hosts, 0, start) && NoDuplicates(hosts[..0])
    ensures DialTrace(hosts[..0], start, callback) == []
  {
  }

  lemma NothingRemoved(hosts: seq<Host>, callback: bool)
    ensures RemoveTrace(hosts[..0], callback) == []
  {
  }

  /** What dialling the next host does, whether or not its place is taken. */
  lemma DialNext(before: map<Host, Service>, conns: Conns, key: Key, hosts: seq<Host>, n: nat, start: nat,
                 s: Service)
    requires n < |hosts| && DialsDone(before, Inner(conns, key), hosts, n, start) && SetOf(hosts) !! before.Keys
    requires s == start + n
    ensures DialsDone(before, Inner(conns, key)[hosts[n] := s], hosts, n + 1, start)
    ensures NoDuplicates(hosts[..n + 1]) <==> NoDuplicates(hosts[..n]) && At(conns, key, hosts[n]) == {}
  {
    hide NoDuplicates, Inner;
    PrefixSnoc(hosts, n);
    HoldNext(Inner(conns, key), hosts, n, start, s);
  }

  lemma HoldNext(after: map<Host, Service>, hosts: seq<Host>, n: nat, start: nat, s: Service)
    requires n < |hosts| && HoldDials(after, hosts[..n], start) && s == start + n
    ensures HoldDials(after[hosts[n] := s], hosts[..n + 1], start)
  {
    var now := after[hosts[n] := s];
    forall h | h in hosts[..n + 1] ensures h in now && start <= now[h] <= s && hosts[..n + 1][now[h] - start] == h {
      assert h != hosts[n] ==> h in hosts[..n] && hosts[..n][after[h] - start] == h;
    }
  }

  lemma DoneHolds(before: map<Host, Service>, after: map<Host, Service>, hosts: seq<Host>, n: nat, start: nat)
    requires n <= |hosts| && DialsDone(before, after, hosts, n, start)
    ensures HoldDials(after, hosts[..n], start)
    ensures after.Keys == before.Keys + SetOf(hosts[..n]) && forall h :: h in before ==> after[h] == before[h]
  {
  }

  lemma HoldAfterRemoval(after: map<Host, Service>, hosts: seq<Host>, gone: set<Host>, start: nat)
    requires HoldDials(after, hosts, start) && SetOf(hosts) !! gone
    ensures HoldDials(after - gone, hosts, start)
  {
    forall h | h in hosts ensures h !in gone {
      assert h in SetOf(hosts);
    }
  }

  lemma DialTraceSnoc(hosts: seq<Host>, n: nat, start: nat, callback: bool)
    requires n < |hosts|
    ensures var before, s := DialTrace(hosts[..n], start, callback), start + n;
            DialTrace(hosts[..n + 1], start, callback) ==
            if callback then before + [Dialled(hosts[n], s)] + [NewService(hosts[n], s)]
            else before + [Dialled(hosts[n], s)]
  {
    assert hosts[..n + 1][..n] == hosts[..n];
  }

  lemma RemoveTraceSnoc(hosts: seq<Host>, n: nat, callback: bool)
    requires n < |hosts|
    ensures var before := RemoveTrace(hosts[..n], callback);
            RemoveTrace(hosts[..n + 1], callback) ==
            if callback then before + [OldService(hosts[n])] + [Removed(hosts[n])] else before + [Removed(hosts[n])]
  {
    assert hosts[..n + 1][..n] == hosts[..n];
  }

  lemma MinusSet(a: seq<Host>, b: set<Host>)
    ensures SetOf(Minus(a, b)) == SetOf(a) - b
    ensures SetOf([]) == {} && NoDuplicates([])
  {
  }

  lemma FailureIsAttempt(before: map<Host, Service>, after: map<Host, Service>, want: seq<Host>, n: nat)
    requires n < |Minus(want, before.Keys)|
    requires after.Keys == before.Keys + SetOf(Minus(want, before.Keys)[..n])
    requires forall h :: h in before ==> after[h] == before[h]
    ensures Attempted(before, after, want, Minus(want, before.Keys)[..n], {}, false)
    ensures SetOf([]) == {} && NoDuplicates([])
  {
    hide Minus;
  }

  lemma SuccessIsAttempt(before: map<Host, Service>, mid: map<Host, Service>, want: seq<Host>)
    requires mid.Keys == before.Keys + SetOf(Minus(want, before.Keys))
    requires forall h :: h in before ==> mid[h] == before[h]
    ensures var gone := before.Keys - SetOf(want);
            Attempted(before, mid - gone, want, Minus(want, before.Keys), gone, true)
  {
    hide Minus;
  }

  /** The services of the removed hosts are those they had before the dials. */
  lemma UnwantedServices(before: map<Host, Service>, mid: map<Host, Service>, existing: seq<Host>, hosts: seq<Host>,
                         want: seq<Host>)
    requires SetOf(existing) == before.Keys && hosts == Minus(existing, SetOf(want))
    requires forall h :: h in before ==> h in mid && mid[h] == before[h]
    ensures SetOf(hosts) == before.Keys - SetOf(want)
    ensures (set h | h in hosts && h in mid :: mid[h]) == set h | h in before.Keys - SetOf(want) :: before[h]
  {
    hide Minus;
    MinusSet(existing, SetOf(want));
    forall h ensures h in hosts <==> h in before && h !in SetOf(want) {
      assert h in hosts <==> h in SetOf(hosts);
    }
  }

  lemma AtElement(conns: Conns, key: Key, host: Host)
    ensures forall s: nat :: s in At(conns, key, host) <==> host in Inner(conns, key) && Inner(conns, key)[host] == s
  {
  }

  /** Whether the `n` dials from number `start` on all succeed. */
  ghost predicate AllAnswered(answers: nat -> bool, start: nat, n: nat) {
    forall i: nat :: start <= i < start + n ==> answers(i)
  }

  lemma NoneAnswered(answers: nat -> bool, start: nat)
    ensures AllAnswered(answers, start, 0)
  {
  }

  lemma AnsweredSnoc(answers: nat -> bool, start: nat, n: nat, m: nat)
    requires n < m
    ensures AllAnswered(answers, start, n + 1) <==> AllAnswered(answers, start, n) && answers(start + n)
    ensures !answers(start + n) ==> !AllAnswered(answers, start, m)
  {
  }

  lemma EmptyPrefix(hosts: seq<Host>)
    ensures SetOf(hosts[..0]) == {} && NoDuplicates(hosts[..0]) && hosts[..0] == []
  {
  }

  lemma PrefixSnoc(hosts: seq<Host>, n: nat)
    requires n < |hosts|
    ensures SetOf(hosts[..n + 1]) == SetOf(hosts[..n]) + {hosts[n]} && hosts[n] in SetOf(hosts)
    ensures NoDuplicates(hosts[..n + 1]) <==> NoDuplicates(hosts[..n]) && hosts[n] !in SetOf(hosts[..n])
    ensures forall h :: h in hosts[..n + 1] <==> h in hosts[..n] || h == hosts[n]
    ensures forall h :: h in hosts[..n] <==> h in SetOf(hosts[..n])
  {
    assert hosts[..n + 1] == hosts[..n] + [hosts[n]];
    if hosts[n] in SetOf(hosts[..n]) {
      var i :| 0 <= i < n && hosts[i] == hosts[n];
      assert hosts[..n + 1][i] == hosts[..n + 1][n];
    }
  }

  // ---- What reconciliation converges to ----

  /** Some host is listed twice and is not in `b`. */
  ghost predicate WantedTwice(want: seq<Host>, b: set<Host>) {
    exists i, j :: 0 <= i < j < |want| && want[i] == want[j] && want[i] !in b
  }

  lemma WantedTwiceSnoc(want: seq<Host>, b: set<Host>, h: Host)
    ensures WantedTwice(want + [h], b) <==> WantedTwice(want, b) || (h in want && h !in b)
  {
    var all := want + [h];
    if WantedTwice(want, b) {
      var i, j :| 0 <= i < j < |want| && want[i] == want[j] && want[i] !in b;
      assert all[i] == all[j];
    }
    if h in want && h !in b {
      var i :| 0 <= i < |want| && want[i] == h;
      assert all[i] == all[|want|];
    }
  }

  lemma MinusSnoc(want: seq<Host>, b: set<Host>, h: Host)
    ensures Minus(want + [h], b) == if h in b then Minus(want, b) else Minus(want, b) + [h]
  {
    assert (want + [h])[..|want|] == want;
  }

  /** A host is dialled twice by a successful reconciliation exactly when it is wanted twice and not connected yet. */
  lemma {:induction false} DialledTwiceIffWantedTwice(want: seq<Host>, b: set<Host>)
    ensures !NoDuplicates(Minus(want, b)) <==> WantedTwice(want, b)
    decreases |want|
  {
    if want != [] {
      hide NoDuplicates, Minus, WantedTwice;
      var init, last := want[..|want| - 1], want[|want| - 1];
      assert want == init + [last];
      DialledTwiceIffWantedTwice(init, b);
      MinusSnoc(init, b, last);
      WantedTwiceSnoc(init, b, last);
      LastRepeats(Minus(init, b), last);
    }
  }

  lemma LastRepeats(m: seq<Host>, last: Host)
    ensures NoDuplicates(m + [last]) <==> NoDuplicates(m) && last !in m
  {
    var all := m + [last];
    if last in m {
      var i :| 0 <= i < |m| && m[i] == last;
      assert all[i] == all[|m|];
    }
    assert forall i :: 0 <= i < |m| ==> all[i] == m[i];
  }

  /** A host listed twice and not connected yet is dialled twice, so its first connection is lost to the pool. */
  lemma RepeatedHost(host: Host)
    ensures Minus([host, host], {}) == [host, host] && !NoDuplicates([host, host])
  {
    assert [host, host][..1] == [host] && [host][..0] == [];
    assert Minus([host], {}) == [host];
    assert [host, host][0] == [host, host][1];
  }

  /** A successful attempt leaves exactly the wanted hosts connected. */
  lemma SuccessReachesWanted(before: map<Host, Service>, after: map<Host, Service>, want: seq<Host>,
                             dialled: seq<Host>, removed: set<Host>)
    requires Attempted(before, after, want, dialled, removed, true)
    ensures after.Keys == SetOf(want)
    ensures forall h :: h in before && h in want ==> after[h] == before[h]
  {
  }

  lemma {:induction false} NothingMissing(want: seq<Host>, b: set<Host>)
    requires SetOf(want) <= b
    ensures Minus(want, b) == []
    decreases |want|
  {
    if want != [] {
      assert want[|want| - 1] in SetOf(want);
      assert SetOf(want[..|want| - 1]) <= SetOf(want);
      NothingMissing(want[..|want| - 1], b);
    }
  }

  /** Repeating a successful reconciliation with the same hosts dials nothing, removes nothing and changes nothing. */
  lemma RepeatingChangesNothing(before: map<Host, Service>, after: map<Host, Service>, after': map<Host, Service>,
                                want: seq<Host>, dialled: seq<Host>, dialled': seq<Host>, removed: set<Host>,
                                removed': set<Host>, ok: bool)
    requires Attempted(before, after, want, dialled, removed, true)
    requires Attempted(after, after', want, dialled', removed', ok)
    ensures ok && dialled' == [] && removed' == {} && after' == after
  {
    SuccessReachesWanted(before, after, want, dialled, removed);
    NothingMissing(want, after.Keys);
  }

  /** Failed attempts, each starting where the previous one ended. */
  ghost predicate FailedAttempts(attempts: seq<Attempt>, want: seq<Host>, newCb: bool, oldCb: bool,
                                 start: map<Host, Service>, end: map<Host, Service>)
  {
    if attempts == [] then start == end
    else
      var a := attempts[|attempts| - 1];
      && FailedAttempts(attempts[..|attempts| - 1], want, newCb, oldCb, start, a.before)
      && IsAttempt(a, want, newCb, oldCb, false)
      && a.after == end
  }

  /** All hosts dialled by a sequence of attempts. */
  function AllDialled(attempts: seq<Attempt>): (hosts: seq<Host>) {
    if attempts == [] then [] else AllDialled(attempts[..|attempts| - 1]) + attempts[|attempts| - 1].dialled
  }

  /** All that a sequence of attempts did. */
  function AllTraces(attempts: seq<Attempt>): (trace: seq<Event>) {
    if attempts == [] then [] else AllTraces(attempts[..|attempts| - 1]) + attempts[|attempts| - 1].trace
  }

  lemma LastOnce(want: seq<Host>)
    requires NoDuplicates(want) && want != []
    ensures NoDuplicates(want[..|want| - 1]) && want[|want| - 1] !in want[..|want| - 1]
  {
  }

  /** Once the first `n` missing hosts are connected, the others are still missing. */
  lemma {:induction false} MinusTwice(want: seq<Host>, b: set<Host>, n: nat)
    requires NoDuplicates(want) && n <= |Minus(want, b)|
    ensures Minus(want, b + SetOf(Minus(want, b)[..n])) == Minus(want, b)[n..]
    decreases |want|
  {
    hide NoDuplicates;
    if want != [] {
      var init, last := want[..|want| - 1], want[|want| - 1];
      var m := Minus(init, b);
      LastOnce(want);
      if last in b {
        MinusTwice(init, b, n);
      } else if n <= |m| {
        MinusTwice(init, b, n);
        assert (m + [last])[..n] == m[..n];
        assert last !in b + SetOf(m[..n]);
      } else {
        MinusTwice(init, b, |m|);
        assert (m + [last])[..n] == m + [last] && m[..|m|] == m;
        MinusIgnores(init, b + SetOf(m), last);
        SetOfConcat(m, [last]);
        assert b + SetOf(m + [last]) == b + SetOf(m) + {last};
      }
    }
  }

  lemma {:induction false} MinusIgnores(a: seq<Host>, b: set<Host>, h: Host)
    requires h !in a
    ensures Minus(a, b + {h}) == Minus(a, b)
    decreases |a|
  {
    if a != [] {
      MinusIgnores(a[..|a| - 1], b, h);
    }
  }

  lemma FailureOnlyAdds(a: Attempt, want: seq<Host>, newCb: bool, oldCb: bool)
    requires NoDuplicates(want) && IsAttempt(a, want, newCb, oldCb, false)
    ensures a.dialled + Minus(want, a.after.Keys) == Minus(want, a.before.Keys)
    ensures a.after.Keys == a.before.Keys + SetOf(a.dialled) && a.removed == []
    ensures forall h :: h in a.before ==> h in a.after && a.after[h] == a.before[h]
  {
    NothingIn(a.removed);
    hide Minus, SetOf, NoDuplicates, DialTrace, RemoveTrace;
    var missing, n := Minus(want, a.before.Keys), |a.dialled|;
    MinusTwice(want, a.before.Keys, n);
    assert a.dialled == missing[..n];
    assert a.after.Keys == a.before.Keys + SetOf(a.dialled);
  }

  lemma NothingIn(hosts: seq<Host>)
    ensures SetOf(hosts) == {} ==> hosts == []
  {
    if hosts != [] {
      assert hosts[0] in SetOf(hosts);
    }
  }

  lemma SetOfNothing()
    ensures SetOf([]) == {}
  {
  }

  lemma SetOfConcat(a: seq<Host>, b: seq<Host>)
    ensures SetOf(a + b) == SetOf(a) + SetOf(b)
  {
  }

  lemma LastAttempt(attempts: seq<Attempt>, want: seq<Host>, newCb: bool, oldCb: bool, start: map<Host, Service>,
                    end: map<Host, Service>)
    requires FailedAttempts(attempts, want, newCb, oldCb, start, end) && attempts != []
    ensures var init, a := attempts[..|attempts| - 1], attempts[|attempts| - 1];
            && FailedAttempts(init, want, newCb, oldCb, start, a.before)
            && AllDialled(attempts) == AllDialled(init) + a.dialled
            && AllTraces(attempts) == AllTraces(init) + a.trace
            && IsAttempt(a, want, newCb, oldCb, false) && a.after == end
  {
  }

  lemma Assoc(a: seq<Host>, b: seq<Host>, c: seq<Host>)
    ensures (a + b) + c == a + (b + c)
  {
  }

  /** Failed attempts dial the missing hosts in the order wanted, each once. */
  lemma {:induction false} FailuresDialInOrder(attempts: seq<Attempt>, want: seq<Host>, newCb: bool, oldCb: bool,
                                               start: map<Host, Service>, end: map<Host, Service>)
    requires NoDuplicates(want) && FailedAttempts(attempts, want, newCb, oldCb, start, end)
    ensures AllDialled(attempts) + Minus(want, end.Keys) == Minus(want, start.Keys)
    decreases |attempts|
  {
    hide IsAttempt, Minus, NoDuplicates, SetOf;
    if attempts != [] {
      hide FailedAttempts, AllDialled, AllTraces;
      var init, a := attempts[..|attempts| - 1], attempts[|attempts| - 1];
      LastAttempt(attempts, want, newCb, oldCb, start, end);
      FailuresDialInOrder(init, want, newCb, oldCb, start, a.before);
      FailureOnlyAdds(a, want, newCb, oldCb);
      Assoc(AllDialled(init), a.dialled, Minus(want, end.Keys));
    }
  }

  /** Failed attempts only add what they dial, and remove nothing. */
  lemma {:induction false} FailuresOnlyAdd(attempts: seq<Attempt>, want: seq<Host>, newCb: bool, oldCb: bool,
                                           start: map<Host, Service>, end: map<Host, Service>)
    requires NoDuplicates(want) && FailedAttempts(attempts, want, newCb, oldCb, start, end)
    ensures end.Keys == start.Keys + SetOf(AllDialled(attempts))
    ensures forall h :: h in start ==> h in end && end[h] == start[h]
    ensures forall i :: 0 <= i < |attempts| ==> attempts[i].removed == [] && start.Keys <= attempts[i].before.Keys
    decreases |attempts|
  {
    hide IsAttempt, Minus, NoDuplicates, SetOf;
    if attempts == [] {
      SetOfNothing();
    } else {
      hide FailedAttempts, AllDialled, AllTraces;
      var init, a := attempts[..|attempts| - 1], attempts[|attempts| - 1];
      LastAttempt(attempts, want, newCb, oldCb, start, end);
      FailuresOnlyAdd(init, want, newCb, oldCb, start, a.before);
      FailureOnlyAdds(a, want, newCb, oldCb);
      SetOfConcat(AllDialled(init), a.dialled);
    }
  }

  lemma {:induction false} CallsConcat(a: seq<Event>, b: seq<Event>)
    ensures NewCalls(a + b) == NewCalls(a) + NewCalls(b) && OldCalls(a + b) == OldCalls(a) + OldCalls(b)
    decreases |b|
  {
    if b == [] {
      assert a + b == a;
    } else {
      assert (a + b)[..|a + b| - 1] == a + b[..|b| - 1];
      CallsConcat(a, b[..|b| - 1]);
    }
  }

  /** An attempt reports each host it dialled once and each host it removed once, and nothing else. */
  lemma CallsOfAttempt(a: Attempt, want: seq<Host>, newCb: bool, oldCb: bool, ok: bool)
    requires IsAttempt(a, want, newCb, oldCb, ok)
    ensures NewCalls(a.trace) == if newCb then a.dialled else []
    ensures OldCalls(a.trace) == if ok && oldCb then a.removed else []
  {
    hide NewCalls, OldCalls, DialTrace, RemoveTrace, Minus, SetOf, NoDuplicates;
    var dials := DialTrace(a.dialled, a.start, newCb);
    CallsOfDials(a.dialled, a.start, newCb);
    CallsOfTrace(dials, a.removed, oldCb);
    if !ok {
      CallsSnoc(dials, DialFailed(Minus(want, a.before.Keys)[|a.dialled|]));
    }
  }

  /** Failed attempts report each host they dialled once, and no other. */
  lemma {:induction false} CallsOfFailures(attempts: seq<Attempt>, want: seq<Host>, newCb: bool, oldCb: bool,
                                           start: map<Host, Service>, end: map<Host, Service>)
    requires FailedAttempts(attempts, want, newCb, oldCb, start, end)
    ensures NewCalls(AllTraces(attempts)) == if newCb then AllDialled(attempts) else []
    ensures OldCalls(AllTraces(attempts)) == []
    decreases |attempts|
  {
    hide NewCalls, OldCalls, IsAttempt;
    if attempts == [] {
      NoCalls();
    } else {
      hide FailedAttempts, AllDialled, AllTraces;
      var init, a := attempts[..|attempts| - 1], attempts[|attempts| - 1];
      LastAttempt(attempts, want, newCb, oldCb, start, end);
      CallsOfFailures(init, want, newCb, oldCb, start, a.before);
      CallsOfAttempt(a, want, newCb, oldCb, false);
      CallsConcat(AllTraces(init), a.trace);
    }
  }

  /** Convergence after partial failures: over any number of failed attempts and then a successful one with the same
      duplicate-free hosts, each missing host is dialled exactly once and in the order wanted; the callback for new
      services is called for exactly these hosts in that order, and the one for old services for no host before the
      attempt that succeeds and then once for each unwanted host; no wanted host is ever removed and no other host
      before the attempt that succeeds; connections that were there and are wanted are kept; and exactly the wanted
      hosts are connected in the end. */
  lemma ConvergesAfterFailures(attempts: seq<Attempt>, last: Attempt, want: seq<Host>, newCb: bool, oldCb: bool,
                               start: map<Host, Service>)
    requires NoDuplicates(want) && FailedAttempts(attempts, want, newCb, oldCb, start, last.before)
    requires IsAttempt(last, want, newCb, oldCb, true)
    ensures AllDialled(attempts) + last.dialled == Minus(want, start.Keys)
    ensures NoDuplicates(AllDialled(attempts) + last.dialled)
    ensures NewCalls(AllTraces(attempts) + last.trace) == if newCb then Minus(want, start.Keys) else []
    ensures OldCalls(AllTraces(attempts)) == [] && OldCalls(last.trace) == if oldCb then last.removed else []
    ensures forall i :: 0 <= i < |attempts| ==> attempts[i].removed == [] && start.Keys <= attempts[i].before.Keys
    ensures SetOf(last.removed) == start.Keys - SetOf(want) && NoDuplicates(last.removed)
    ensures last.after.Keys == SetOf(want)
    ensures forall h :: h in start && h in want ==> last.after[h] == start[h]
  {
    hide FailedAttempts, AllDialled, AllTraces, NewCalls, OldCalls, DialTrace, RemoveTrace;
    FailuresDialInOrder(attempts, want, newCb, oldCb, start, last.before);
    FailuresOnlyAdd(attempts, want, newCb, oldCb, start, last.before);
    SuccessReachesWanted(last.before, last.after, want, last.dialled, SetOf(last.removed));
    MinusNoDuplicates(want, start.Keys);
    CallsOfFailures(attempts, want, newCb, oldCb, start, last.before);
    CallsOfAttempt(last, want, newCb, oldCb, true);
    CallsConcat(AllTraces(attempts), last.trace);
    forall h | h in AllDialled(attempts) ensures h in want {
      assert h in AllDialled(attempts) + Minus(want, last.before.Keys);
    }
  }

  /** The dialled connections that were not cancelled are exactly those in the pool, if and only if no dial ever took
      the place of a pooled connection. */
  lemma NoLeakIffNothingOverwritten(dials: nat, dialled: set<Service>, cancelled: set<Service>, conns: Conns,
                                    pooled: Places, overwritten: set<Service>)
    requires Matches(conns, pooled) && Accounted(dials, dialled, cancelled, pooled.Keys, overwritten)
    ensures (forall s: nat :: s in dialled - cancelled <==> exists k, h :: Holds(conns, k, h, s)) <==> overwritten == {}
  {
    forall s: nat ensures s in pooled <==> exists k, h :: Holds(conns, k, h, s) {
      if s in pooled {
        assert Holds(conns, pooled[s].0, pooled[s].1, s);
      }
    }
  }
}
