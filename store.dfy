/**
 * The bot's store of message definitions: `config['messages']` of
 * bot_manager.py, an insertion-ordered dict from id to definition, as
 * `load_config` reads it and as `finalize_add_message` and the remove
 * callback change it.
 */
module MessageStore {
  import opened Basics
  import opened Strings

  /**
   * A schedule is the YAML mapping the bot writes: `type` (`daily` or
   * `weekly`), `time` and, for weekly ones, `day`.  It stays a mapping here
   * because a hand-edited file may lack any of those keys.
   */
  type Schedule = map<string, string>

  /** One stored message definition; `schedule` is None when it is null or absent. */
  datatype Definition = Definition(
    text: string,
    imagePaths: seq<string>,
    recipients: seq<string>,
    schedule: Option<Schedule>)

  /** An insertion-ordered dict: the keys in insertion order and the values by key. */
  datatype Store = Store(ids: seq<string>, defs: map<string, Definition>)
  {
    ghost predicate Valid()
    {
      && Distinct(ids)
      && (forall id :: id in defs <==> id in ids)
    }
  }

  const EmptyStore: Store := Store([], map[])

  /** `messages[id] = d`: a new key goes last, an existing key keeps its place. */
  function Insert(s: Store, id: string, d: Definition): (r: Store)
    requires s.Valid()
    ensures r.Valid()
    ensures r.defs == s.defs[id := d]
    ensures r.ids == if id in s.defs then s.ids else s.ids + [id]
  {
    Store(if id in s.defs then s.ids else s.ids + [id], s.defs[id := d])
  }

  /** The sequence `xs` with every occurrence of `x` taken out. */
  function Without(xs: seq<string>, x: string): (r: seq<string>)
    ensures forall y :: y in r <==> y in xs && y != x
  {
    if xs == [] then [] else (if xs[0] == x then [] else [xs[0]]) + Without(xs[1..], x)
  }

  /** `del messages[id]` when `id` is present; an absent id changes nothing. */
  function Remove(s: Store, id: string): (r: Store)
    requires s.Valid()
    ensures r.Valid()
    ensures r.defs == s.defs - {id}
  {
    WithoutDistinct(s.ids, id);
    Store(Without(s.ids, id), s.defs - {id})
  }

  predicate Distinct(xs: seq<string>)
  {
    forall i, j :: 0 <= i < j < |xs| ==> xs[i] != xs[j]
  }

  lemma {:induction false} WithoutDistinct(xs: seq<string>, x: string)
    requires Distinct(xs)
    ensures Distinct(Without(xs, x))
  {
    if xs != [] {
      WithoutDistinct(xs[1..], x);
      var r, rest := Without(xs, x), Without(xs[1..], x);
      if xs[0] != x {
        assert xs[0] !in xs[1..];
        assert xs[0] !in rest;
        assert r == [xs[0]] + rest;
        forall i, j | 0 <= i < j < |r|
          ensures r[i] != r[j]
        {
          assert r[j] == rest[j - 1];
          if i == 0 {
            assert r[j] in rest;
          } else {
            assert r[i] == rest[i - 1];
          }
        }
      } else {
        assert r == rest;
      }
    }
  }

  lemma {:induction false} WithoutAbsent(xs: seq<string>, x: string)
    requires x !in xs
    ensures Without(xs, x) == xs
  {
    if xs != [] {
      WithoutAbsent(xs[1..], x);
      assert [xs[0]] + xs[1..] == xs;
    }
  }

  lemma {:induction false} WithoutAt(xs: seq<string>, k: nat)
    requires k < |xs|
    requires Distinct(xs)
    ensures Without(xs, xs[k]) == xs[..k] + xs[k + 1..]
  {
    if k == 0 {
      assert xs[0] !in xs[1..];
      WithoutAbsent(xs[1..], xs[0]);
    } else {
      WithoutAt(xs[1..], k - 1);
      assert xs[1..][k - 1] == xs[k];
      assert xs[1..][..k - 1] + xs[1..][k..] == xs[1..k] + xs[k + 1..];
      assert [xs[0]] + xs[1..k] == xs[..k];
    }
  }

  /**
   * Removing a present id takes out exactly its key and keeps every other id
   * in its order; an unknown id leaves the store as it was.
   */
  lemma RemoveKeepsOrder(s: Store, id: string)
    requires s.Valid()
    ensures id !in s.defs ==> Remove(s, id) == s
    ensures forall k :: 0 <= k < |s.ids| && s.ids[k] == id ==>
              Remove(s, id).ids == s.ids[..k] + s.ids[k + 1..]
  {
    if id !in s.defs {
      WithoutAbsent(s.ids, id);
      assert s.defs - {id} == s.defs;
    }
    forall k | 0 <= k < |s.ids| && s.ids[k] == id
      ensures Remove(s, id).ids == s.ids[..k] + s.ids[k + 1..]
    {
      WithoutAt(s.ids, k);
    }
  }

  // ---------------------------------------------------------------------------
  // load_config

  /**
   * What the configuration file holds for `load_config`: no file, or a parsed
   * document whose `messages` mapping (key/value pairs in document order) is
   * None when the document is empty or has no `messages` key.
   */
  datatype StoreFile = Absent | Document(messages: Option<seq<(string, Definition)>>)

  /** The keys of the pairs, in document order. */
  function Keys(ps: seq<(string, Definition)>): (ks: seq<string>)
    ensures |ks| == |ps| && forall i :: 0 <= i < |ps| ==> ks[i] == ps[i].0
  {
    seq(|ps|, i requires 0 <= i < |ps| => ps[i].0)
  }

  /** No pair after position `i` has the key of pair `i`. */
  predicate LastWithKey(ps: seq<(string, Definition)>, i: nat)
    requires i < |ps|
  {
    forall j :: i < j < |ps| ==> ps[j].0 != ps[i].0
  }

  /**
   * The mapping the YAML loader builds from key/value pairs: dict assignment,
   * one pair at a time.  Each key holds the value of its last pair, and
   * without repeated keys the ids are the keys in document order.
   */
  function FromPairs(ps: seq<(string, Definition)>): (r: Store)
    ensures r.Valid()
    ensures forall id :: id in r.defs <==> exists i :: 0 <= i < |ps| && ps[i].0 == id
    ensures forall i :: 0 <= i < |ps| && LastWithKey(ps, i) ==> r.defs[ps[i].0] == ps[i].1
    ensures Distinct(Keys(ps)) ==> r.ids == Keys(ps)
  {
    if ps == [] then EmptyStore
    else
      var init, last := ps[..|ps| - 1], ps[|ps| - 1];
      assert ps == init + [last];
      var prev := FromPairs(init);
      AssignKeys(init, last, prev);
      AssignValues(init, last, prev);
      AssignOrder(init, last, prev);
      Insert(prev, last.0, last.1)
  }

  /** One more assignment adds its key. */
  lemma AssignKeys(init: seq<(string, Definition)>, last: (string, Definition), prev: Store)
    requires prev.Valid()
    requires forall id :: id in prev.defs <==> exists i :: 0 <= i < |init| && init[i].0 == id
    ensures var ps := init + [last];
            forall id :: id in Insert(prev, last.0, last.1).defs <==> exists i :: 0 <= i < |ps| && ps[i].0 == id
  {
    var ps := init + [last];
    assert forall i :: 0 <= i < |init| ==> ps[i] == init[i];
    assert ps[|init|] == last;
  }

  /** One more assignment overrides its key and leaves the value of every other key. */
  lemma AssignValues(init: seq<(string, Definition)>, last: (string, Definition), prev: Store)
    requires prev.Valid()
    requires forall i :: 0 <= i < |init| ==> init[i].0 in prev.defs
    requires forall i :: 0 <= i < |init| && LastWithKey(init, i) ==> prev.defs[init[i].0] == init[i].1
    ensures var ps := init + [last];
            forall i :: 0 <= i < |ps| && LastWithKey(ps, i) ==> Insert(prev, last.0, last.1).defs[ps[i].0] == ps[i].1
  {
    var ps := init + [last];
    forall i | 0 <= i < |init| && LastWithKey(ps, i)
      ensures prev.defs[init[i].0] == init[i].1 && init[i].0 != last.0
    {
      assert ps[i] == init[i] && ps[|init|] == last;
      assert LastWithKey(init, i) by {
        forall j | i < j < |init|
          ensures init[j].0 != init[i].0
        {
          assert ps[j] == init[j];
        }
      }
    }
    assert forall i :: 0 <= i < |init| ==> ps[i] == init[i];
    assert ps[|init|] == last;
  }

  /** With distinct keys, one more assignment appends its key. */
  lemma AssignOrder(init: seq<(string, Definition)>, last: (string, Definition), prev: Store)
    requires prev.Valid()
    requires forall id :: id in prev.defs <==> exists i :: 0 <= i < |init| && init[i].0 == id
    requires Distinct(Keys(init)) ==> prev.ids == Keys(init)
    ensures Distinct(Keys(init + [last])) ==> Insert(prev, last.0, last.1).ids == Keys(init + [last])
  {
    var ps := init + [last];
    if Distinct(Keys(ps)) {
      assert Keys(init) == Keys(ps)[..|init|];
      forall i | 0 <= i < |init|
        ensures init[i].0 != last.0
      {
        assert Keys(ps)[i] == init[i].0 && Keys(ps)[|init|] == last.0;
      }
      assert last.0 !in prev.defs;
      assert Keys(ps) == Keys(init) + [last.0];
    }
  }

  /** `load_config`: never fails, and falls back to the empty store when there is nothing to read. */
  function LoadConfig(f: StoreFile): (r: Store)
    ensures r.Valid()
    ensures f.Absent? || f.messages.None? ==> r == EmptyStore
    ensures f.Document? && f.messages.Some? ==>
              var ps := f.messages.value;
              && (forall id :: id in r.defs <==> exists i :: 0 <= i < |ps| && ps[i].0 == id)
              && (forall i :: 0 <= i < |ps| && LastWithKey(ps, i) ==> r.defs[ps[i].0] == ps[i].1)
              && (Distinct(Keys(ps)) ==> r.ids == Keys(ps))
  {
    match f
    case Absent => EmptyStore
    case Document(None) => EmptyStore
    case Document(Some(ps)) => FromPairs(ps)
  }

  // ---------------------------------------------------------------------------
  // Id allocation in finalize_add_message

  /** `f"MESSAGE_{n}"` */
  function MessageId(n: nat): string
  {
    "MESSAGE_" + NatToString(n)
  }

  lemma MessageIdInjective(a: nat, b: nat)
    requires MessageId(a) == MessageId(b)
    ensures a == b
  {
    assert NatToString(a) == MessageId(a)[8..];
    assert NatToString(b) == MessageId(b)[8..];
    NatToStringInjective(a, b);
  }

  /** `int(new_id.split('_')[1])` recovers the number of an allocated id. */
  lemma MessageIdNumber(n: nat)
    ensures |Split(MessageId(n), '_')| >= 2
    ensures PyInt(Split(MessageId(n), '_')[1]) == Some(n)
  {
    MessageIdSplit(n);
    PyIntToString(n);
    assert IntToString(n) == NatToString(n);
  }

  /** `MESSAGE_n` splits on `_` into the prefix and the digits of n. */
  lemma MessageIdSplit(n: nat)
    ensures Split(MessageId(n), '_') == ["MESSAGE", NatToString(n)]
  {
    var d := NatToString(n);
    assert '_' !in d by {
      assert forall i :: 0 <= i < |d| ==> IsDigit(d[i]);
    }
    SplitAt("MESSAGE", d, '_');
    assert MessageId(n) == "MESSAGE" + ['_'] + d;
    SplitNoSeparator(d, '_');
  }

  /**
   * `id` is what the allocation yields for the existing ids `ids`:
   * `MESSAGE_n` for the least n > |ids| whose id is not taken.  Gaps below
   * |ids| + 1 are never filled.
   */
  ghost predicate IsNextId(ids: seq<string>, id: string)
  {
    exists n: nat ::
      && n > |ids|
      && id == MessageId(n)
      && id !in ids
      && forall m: nat :: |ids| < m < n ==> MessageId(m) in ids
  }

  /** At most |ids| consecutive numbers past |ids| can be taken. */
  lemma TakenRunBound(ids: seq<string>, n: nat)
    requires n > |ids|
    requires forall m: nat :: |ids| < m <= n ==> MessageId(m) in ids
    ensures n - |ids| <= |ids|
  {
    var f := (m: nat) => MessageId(m);
    forall i: nat, j: nat | |ids| + 1 <= i < j < n + 1
      ensures f(i) != f(j)
    {
      if f(i) == f(j) {
        MessageIdInjective(i, j);
      }
    }
    Pigeonhole(f, |ids| + 1, n + 1, set x | x in ids);
    SeqSetSize(ids);
  }

  /**
   * `new_id = f"MESSAGE_{len(existing_ids) + 1}"`, then count up while the id
   * is taken.  The loop ends because only finitely many ids are taken.
   */
  method AllocateId(ids: seq<string>) returns (newId: string)
    ensures IsNextId(ids, newId)
  {
    newId := MessageId(|ids| + 1);
    ghost var n: nat := |ids| + 1;
    while newId in ids
      invariant n > |ids| && newId == MessageId(n)
      invariant forall m: nat :: |ids| < m < n ==> MessageId(m) in ids
      decreases 2 * |ids| + 1 - n
    {
      TakenRunBound(ids, n);
      MessageIdNumber(n);
      var number := PyInt(Split(newId, '_')[1]);
      newId := MessageId(number.value + 1);
      n := n + 1;
    }
    assert n > |ids| && newId == MessageId(n) && newId !in ids && forall m: nat :: |ids| < m < n ==> MessageId(m) in ids;
  }

  /** The allocation rule picks one id: two ids that both satisfy it are equal. */
  lemma NextIdUnique(ids: seq<string>, a: string, b: string)
    requires IsNextId(ids, a) && IsNextId(ids, b)
    ensures a == b
  {
    var na: nat :| na > |ids| && a == MessageId(na) && a !in ids && forall m: nat :: |ids| < m < na ==> MessageId(m) in ids;
    var nb: nat :| nb > |ids| && b == MessageId(nb) && b !in ids && forall m: nat :: |ids| < m < nb ==> MessageId(m) in ids;
    if na < nb {
      assert false;
    } else if nb < na {
      assert false;
    }
  }

  /** With MESSAGE_1, MESSAGE_2 and MESSAGE_4 stored the next id is MESSAGE_5, not the free MESSAGE_3. */
  lemma AllocationSkipsGaps()
    ensures IsNextId(["MESSAGE_1", "MESSAGE_2", "MESSAGE_4"], "MESSAGE_5")
    ensures !IsNextId(["MESSAGE_1", "MESSAGE_2", "MESSAGE_4"], "MESSAGE_3")
  {
    var ids := ["MESSAGE_1", "MESSAGE_2", "MESSAGE_4"];
    assert MessageId(4) == "MESSAGE_4";
    assert MessageId(5) == "MESSAGE_5";
    assert MessageId(3) == "MESSAGE_3";
  }
}
