/**
 * What `_local_broadcast` does with the registered clients, as functions over the
 * insertion-ordered list of client ids (backend/main.py, ConnectionManager._local_broadcast):
 * who is sent to, who is found dead, and the log of send attempts.
 */
module Fanout {
  import opened Wrappers
  import opened Messages

  /** An open WebSocket, known only by an opaque handle. */
  datatype Conn = Conn(handle: nat)

  /** One `send_json` attempt: to which client, over which socket, what, and whether it went through. */
  datatype Delivery = Delivery(to: string, conn: Conn, msg: Payload, ok: bool)

  /** No id occurs twice: the last one is not among the others, which are themselves distinct. */
  predicate Distinct(s: seq<string>)
  {
    s == [] || (s[|s| - 1] !in s[..|s| - 1] && Distinct(s[..|s| - 1]))
  }

  /** In a duplicate-free list any two positions hold different ids. */
  lemma {:induction false} DistinctPairwise(s: seq<string>)
    requires Distinct(s)
    ensures forall i, j :: 0 <= i < j < |s| ==> s[i] != s[j]
  {
    if s != [] {
      var init := s[..|s| - 1];
      DistinctPairwise(init);
      forall i, j | 0 <= i < j < |s|
        ensures s[i] != s[j]
      {
        if j < |s| - 1 {
          assert s[i] == init[i] && s[j] == init[j];
        } else {
          assert s[i] == init[i];
        }
      }
    }
  }

  /** `s` without the ids in `drop`, the rest in their original order. */
  function Keep(s: seq<string>, drop: set<string>): (r: seq<string>)
    ensures forall x :: x in r <==> x in s && x !in drop
    ensures |r| <= |s|
  {
    if s == [] then []
    else Keep(s[..|s| - 1], drop) + (if s[|s| - 1] in drop then [] else [s[|s| - 1]])
  }

  /** Appending an id not yet listed keeps a list duplicate-free. */
  lemma AppendDistinct(s: seq<string>, x: string)
    requires Distinct(s) && x !in s
    ensures Distinct(s + [x])
  {
    assert (s + [x])[..|s|] == s;
  }

  /** Dropping ids never creates a duplicate. */
  lemma {:induction false} KeepDistinct(s: seq<string>, drop: set<string>)
    requires Distinct(s)
    ensures Distinct(Keep(s, drop))
  {
    if s != [] {
      var init, last := s[..|s| - 1], s[|s| - 1];
      KeepDistinct(init, drop);
      if last !in drop {
        assert last !in Keep(init, drop);
        AppendDistinct(Keep(init, drop), last);
      } else {
        assert Keep(s, drop) == Keep(init, drop);
      }
    }
  }

  /** Dropping one set and then another is dropping both at once. */
  lemma {:induction false} KeepKeep(s: seq<string>, a: set<string>, b: set<string>)
    ensures Keep(Keep(s, a), b) == Keep(s, a + b)
  {
    if s != [] {
      var init, last := s[..|s| - 1], s[|s| - 1];
      KeepKeep(init, a, b);
      var ka := Keep(init, a);
      if last in a {
        assert Keep(s, a) == ka;
        assert Keep(s, a + b) == Keep(init, a + b);
      } else {
        assert Keep(s, a) == ka + [last];
        assert (ka + [last])[..|ka + [last]| - 1] == ka;
        assert Keep(ka + [last], b) == Keep(ka, b) + (if last in b then [] else [last]);
        assert Keep(s, a + b) == Keep(init, a + b) + (if last in b then [] else [last]);
      }
    }
  }

  /** Dropping ids that do not occur changes nothing. */
  lemma {:induction false} KeepAbsent(s: seq<string>, drop: set<string>)
    requires forall i :: 0 <= i < |s| ==> s[i] !in drop
    ensures Keep(s, drop) == s
  {
    if s != [] {
      var init, last := s[..|s| - 1], s[|s| - 1];
      KeepAbsent(init, drop);
      assert s == init + [last];
    }
  }

  /** Dropping an id that does not occur changes nothing. */
  lemma KeepMissing(s: seq<string>, id: string)
    requires id !in s
    ensures Keep(s, {id}) == s
  {
    KeepAbsent(s, {id});
  }

  /** The ids occurring in `s`. */
  function Elements(s: seq<string>): (r: set<string>)
    ensures forall x :: x in r <==> x in s
  {
    set x | x in s
  }

  /** A duplicate-free list has as many elements as its set of ids. */
  lemma {:induction false} DistinctCardinality(s: seq<string>)
    requires Distinct(s)
    ensures |Elements(s)| == |s|
  {
    if s != [] {
      var init, last := s[..|s| - 1], s[|s| - 1];
      DistinctCardinality(init);
      assert Elements(s) == Elements(init) + {last};
      assert last !in Elements(init);
    }
  }

  /** In a duplicate-free list every id occurs exactly once or not at all. */
  lemma {:induction false} DistinctMultiplicity(s: seq<string>, id: string)
    requires Distinct(s)
    ensures multiset(s)[id] == if id in s then 1 else 0
  {
    if s != [] {
      var init, last := s[..|s| - 1], s[|s| - 1];
      assert Distinct(init);
      DistinctMultiplicity(init, id);
      assert s == init + [last];
      assert last !in init;
    }
  }

  /** The ids named by `_local_broadcast`'s `exclude` argument. */
  function Excluded(exclude: Option<string>): (r: set<string>)
    ensures forall x :: x in r <==> exclude == Some(x)
  {
    if exclude.Some? then {exclude.value} else {}
  }

  /** The clients `_local_broadcast` sends to, in the iteration order of the registry. */
  function Recipients(order: seq<string>, exclude: Option<string>): (rs: seq<string>)
  {
    Keep(order, Excluded(exclude))
  }

  /** Every registered client except the excluded one is a recipient exactly once; the excluded one never is. */
  lemma RecipientsExactlyOnce(order: seq<string>, exclude: Option<string>, id: string)
    requires Distinct(order)
    ensures multiset(Recipients(order, exclude))[id] == if id in order && exclude != Some(id) then 1 else 0
  {
    KeepDistinct(order, Excluded(exclude));
    DistinctMultiplicity(Recipients(order, exclude), id);
  }

  /** The clients a fan-out finds dead and removes. */
  function FailedSet(order: seq<string>, conns: map<string, Conn>, exclude: Option<string>, dead: set<Conn>): (r: set<string>)
    ensures forall x :: x in r <==> x in order && exclude != Some(x) && x in conns && conns[x] in dead
  {
    set x | x in order && exclude != Some(x) && x in conns && conns[x] in dead
  }

  /** The `send_json` attempts made to `ids`, one per id and in that order. */
  function Deliveries(ids: seq<string>, conns: map<string, Conn>, dead: set<Conn>, msg: Payload): (r: seq<Delivery>)
    requires forall x :: x in ids ==> x in conns
    ensures |r| == |ids|
    ensures forall i :: 0 <= i < |ids| ==> r[i] == Delivery(ids[i], conns[ids[i]], msg, conns[ids[i]] !in dead)
  {
    if ids == [] then []
    else
      var last := ids[|ids| - 1];
      Deliveries(ids[..|ids| - 1], conns, dead, msg) + [Delivery(last, conns[last], msg, conns[last] !in dead)]
  }

  /** Every send of a fan-out goes to a registered, non-excluded client over its registered socket, and fails exactly when that socket is dead. */
  lemma FanoutSendsToRecipients(order: seq<string>, conns: map<string, Conn>, exclude: Option<string>,
                                dead: set<Conn>, msg: Payload)
    requires forall x :: x in order ==> x in conns
    ensures forall d :: d in Deliveries(Recipients(order, exclude), conns, dead, msg) ==>
              d.to in order && exclude != Some(d.to) && d.conn == conns[d.to] && d.msg == msg && (d.ok <==> conns[d.to] !in dead)
  {
    var rs := Recipients(order, exclude);
    var ds := Deliveries(rs, conns, dead, msg);
    forall d | d in ds
      ensures d.to in order && exclude != Some(d.to) && d.conn == conns[d.to] && d.msg == msg && (d.ok <==> conns[d.to] !in dead)
    {
      var i :| 0 <= i < |ds| && ds[i] == d;
      assert d.to == rs[i] && rs[i] in rs;
    }
  }

  /** A fan-out over a duplicate-free registry never sends to the same client twice. */
  lemma FanoutNoRepeat(order: seq<string>, conns: map<string, Conn>, exclude: Option<string>,
                       dead: set<Conn>, msg: Payload)
    requires Distinct(order)
    requires forall x :: x in order ==> x in conns
    ensures var ds := Deliveries(Recipients(order, exclude), conns, dead, msg);
      forall i, j :: 0 <= i < j < |ds| ==> ds[i].to != ds[j].to
  {
    var rs := Recipients(order, exclude);
    KeepDistinct(order, Excluded(exclude));
    DistinctPairwise(rs);
  }

  /** A fan-out sends to every registered client other than the excluded one. */
  lemma FanoutCoversRecipients(order: seq<string>, conns: map<string, Conn>, exclude: Option<string>,
                               dead: set<Conn>, msg: Payload)
    requires forall x :: x in order ==> x in conns
    ensures var ds := Deliveries(Recipients(order, exclude), conns, dead, msg);
      forall id :: id in order && exclude != Some(id) ==> exists d :: d in ds && d.to == id
  {
    var rs := Recipients(order, exclude);
    var ds := Deliveries(rs, conns, dead, msg);
    forall id | id in order && exclude != Some(id)
      ensures exists d :: d in ds && d.to == id
    {
      var i :| 0 <= i < |rs| && rs[i] == id;
      assert ds[i].to == id;
    }
  }

  /**
   * A fan-out reaches every registered client other than the excluded one, each exactly
   * once, over its registered socket; it never reaches the excluded client; and a send
   * fails exactly when that socket is dead.
   */
  lemma FanoutReachesEachOnce(order: seq<string>, conns: map<string, Conn>, exclude: Option<string>,
                              dead: set<Conn>, msg: Payload)
    requires Distinct(order)
    requires forall x :: x in order ==> x in conns
    ensures var ds := Deliveries(Recipients(order, exclude), conns, dead, msg);
      && (forall d :: d in ds ==> d.to in order && exclude != Some(d.to) && d.conn == conns[d.to]
                                  && d.msg == msg && (d.ok <==> conns[d.to] !in dead))
      && (forall i, j :: 0 <= i < j < |ds| ==> ds[i].to != ds[j].to)
      && (forall id :: id in order && exclude != Some(id) ==> exists d :: d in ds && d.to == id)
  {
    FanoutSendsToRecipients(order, conns, exclude, dead, msg);
    FanoutNoRepeat(order, conns, exclude, dead, msg);
    FanoutCoversRecipients(order, conns, exclude, dead, msg);
  }

  /** Appending one id to a list appends it to the kept ids too, unless it is dropped. */
  lemma {:induction false} KeepStep(s: seq<string>, x: string, drop: set<string>)
    ensures Keep(s + [x], drop) == Keep(s, drop) + (if x in drop then [] else [x])
  {
    assert (s + [x])[..|s + [x]| - 1] == s;
  }

  /** One more recipient extends the send log by one attempt to it. */
  lemma {:induction false} DeliveriesStep(ids: seq<string>, x: string, conns: map<string, Conn>, dead: set<Conn>, msg: Payload)
    requires forall y :: y in ids ==> y in conns
    requires x in conns
    ensures Deliveries(ids + [x], conns, dead, msg) == Deliveries(ids, conns, dead, msg) + [Delivery(x, conns[x], msg, conns[x] !in dead)]
  {
    assert (ids + [x])[..|ids + [x]| - 1] == ids;
  }

  /** The registered clients whose socket still accepts sends. */
  function Live(conns: map<string, Conn>, dead: set<Conn>): (r: set<string>)
    ensures forall x :: x in r <==> x in conns && conns[x] !in dead
  {
    set x | x in conns && conns[x] !in dead
  }

  /** The recipients among `ids` whose send fails, in the order they are tried. */
  function Failing(ids: seq<string>, conns: map<string, Conn>, exclude: Option<string>, dead: set<Conn>): (failed: seq<string>)
  {
    Keep(Recipients(ids, exclude), Live(conns, dead))
  }

  /** The failing recipients are exactly the members of `FailedSet`. */
  lemma FailingIsFailedSet(ids: seq<string>, conns: map<string, Conn>, exclude: Option<string>, dead: set<Conn>)
    requires forall y :: y in ids ==> y in conns
    ensures Elements(Failing(ids, conns, exclude, dead)) == FailedSet(ids, conns, exclude, dead)
  {
  }

  /** One more registered id extends the recipient list by that id unless it is the excluded one. */
  lemma {:induction false} RecipientsStep(s: seq<string>, x: string, exclude: Option<string>)
    ensures Recipients(s + [x], exclude) == Recipients(s, exclude) + (if exclude == Some(x) then [] else [x])
  {
    KeepStep(s, x, Excluded(exclude));
  }

  /** One more registered id extends the failing recipients by that id when it is a recipient whose socket is dead. */
  lemma {:induction false} FailingStep(s: seq<string>, x: string, conns: map<string, Conn>, exclude: Option<string>, dead: set<Conn>)
    requires x in conns
    ensures Failing(s + [x], conns, exclude, dead)
            == Failing(s, conns, exclude, dead) + (if exclude != Some(x) && conns[x] in dead then [x] else [])
  {
    RecipientsStep(s, x, exclude);
    if exclude != Some(x) {
      KeepStep(Recipients(s, exclude), x, Live(conns, dead));
      assert x in Live(conns, dead) <==> conns[x] !in dead;
    } else {
      assert Recipients(s + [x], exclude) == Recipients(s, exclude);
    }
  }

  /** Visiting position `i` of the registry order: the recipients grow by `ids[i]` unless it is excluded. */
  lemma {:induction false} RecipientsPrefixStep(ids: seq<string>, i: nat, exclude: Option<string>)
    requires i < |ids|
    ensures Recipients(ids[..i + 1], exclude) == Recipients(ids[..i], exclude) + (if exclude == Some(ids[i]) then [] else [ids[i]])
  {
    assert ids[..i + 1] == ids[..i] + [ids[i]];
    RecipientsStep(ids[..i], ids[i], exclude);
  }

  /** Visiting position `i`: the failing recipients grow by `ids[i]` when it is a recipient whose socket is dead. */
  lemma {:induction false} FailStep(ids: seq<string>, i: nat, conns: map<string, Conn>, exclude: Option<string>, dead: set<Conn>)
    requires i < |ids|
    requires ids[i] in conns
    ensures Failing(ids[..i + 1], conns, exclude, dead)
            == Failing(ids[..i], conns, exclude, dead) + (if exclude != Some(ids[i]) && conns[ids[i]] in dead then [ids[i]] else [])
  {
    assert ids[..i + 1] == ids[..i] + [ids[i]];
    FailingStep(ids[..i], ids[i], conns, exclude, dead);
  }
}
