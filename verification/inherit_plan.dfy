/**
 A walk that adds each wanted key once: which entries it leaves and where, told from what each step wants.
 */
module InheritPlan {
  import opened InheritTable

  // What the j-th step of a walk wants: whether anything, under which key, and in what slot
  datatype Plan = Plan(offers: nat -> bool, key: nat -> string, slot: nat -> Slot)

  function Carry(pl: Plan, u: Table, j: nat): Table {
    if pl.offers(j) && pl.key(j) !in u.fds then u.Add(pl.key(j), NumberFor(pl.slot(j), |u.extra|), pl.slot(j)) else u
  }

  // After the first n steps
  function Carried(pl: Plan, t: Table, n: nat): Table {
    if n == 0 then t else Carry(pl, Carried(pl, t, n - 1), n - 1)
  }

  predicate OffersKey(pl: Plan, j: nat, key: string) {
    pl.offers(j) && pl.key(j) == key
  }

  predicate Offered(pl: Plan, n: nat, key: string) {
    exists j :: 0 <= j < n && OffersKey(pl, j, key)
  }

  lemma OfferedNext(pl: Plan, n: nat, key: string)
    requires n > 0
    ensures Offered(pl, n, key) <==> Offered(pl, n - 1, key) || OffersKey(pl, n - 1, key)
  {
    if Offered(pl, n - 1, key) {
      var j :| 0 <= j < n - 1 && OffersKey(pl, j, key);
      assert j < n;
    }
  }

  // A key is taken exactly if it was before, or if some step offers it
  lemma {:induction false} KeyIff(pl: Plan, t: Table, n: nat, key: string)
    ensures key in Carried(pl, t, n).fds <==> key in t.fds || Offered(pl, n, key)
  {
    if n > 0 {
      KeyIff(pl, t, n - 1, key);
      OfferedNext(pl, n, key);
    }
  }

  // The j-th step is the first to offer a key that was not taken
  predicate Adds(pl: Plan, t: Table, j: nat) {
    pl.offers(j) && pl.key(j) !in t.fds && !Offered(pl, j, pl.key(j))
  }

  // How many entries the first n steps add
  function Added(pl: Plan, t: Table, n: nat): nat {
    if n == 0 then 0 else Added(pl, t, n - 1) + if Adds(pl, t, n - 1) then 1 else 0
  }

  lemma CarriedNext(pl: Plan, t: Table, n: nat)
    requires n > 0
    ensures var u, slot := Carried(pl, t, n - 1), pl.slot(n - 1);
            Carried(pl, t, n) == if Adds(pl, t, n - 1) then u.Add(pl.key(n - 1), NumberFor(slot, |u.extra|), slot) else u
  {
    KeyIff(pl, t, n - 1, pl.key(n - 1));
  }

  lemma {:induction false} AddedSize(pl: Plan, t: Table, n: nat)
    ensures |Carried(pl, t, n).extra| == |t.extra| + Added(pl, t, n)
    ensures |Carried(pl, t, n).inherits| == |t.inherits| + Added(pl, t, n)
  {
    if n > 0 {
      AddedSize(pl, t, n - 1);
      CarriedNext(pl, t, n);
    }
  }

  lemma {:induction false} AddedGrows(pl: Plan, t: Table, j: nat, n: nat)
    requires j < n
    ensures Added(pl, t, j) + (if Adds(pl, t, j) then 1 else 0) <= Added(pl, t, n)
  {
    if j < n - 1 {
      AddedGrows(pl, t, j, n - 1);
    }
  }

  // What was in the table stays
  lemma {:induction false} TableGrows(pl: Plan, t: Table, n: nat)
    ensures t.extra <= Carried(pl, t, n).extra && t.inherits <= Carried(pl, t, n).inherits
  {
    if n > 0 {
      TableGrows(pl, t, n - 1);
      CarriedNext(pl, t, n);
    }
  }

  // The number that the j-th step's entry gets
  function NumberOf(pl: Plan, t: Table, j: nat): int {
    NumberFor(pl.slot(j), |t.extra| + Added(pl, t, j))
  }

  // The slot and the entry that the j-th step added, after any more steps
  lemma {:induction false} EntryAddedAt(pl: Plan, t: Table, j: nat, n: nat)
    requires j < n && Adds(pl, t, j)
    ensures var u, a := Carried(pl, t, n), Added(pl, t, j);
            && |t.extra| + a < |u.extra| && u.extra[|t.extra| + a] == pl.slot(j)
            && |t.inherits| + a < |u.inherits| && u.inherits[|t.inherits| + a] == Inherit(pl.key(j), NumberOf(pl, t, j))
  {
    AddedSize(pl, t, n - 1);
    CarriedNext(pl, t, n);
    if j < n - 1 {
      EntryAddedAt(pl, t, j, n - 1);
    }
  }

  // Every new slot was added by some step
  lemma {:induction false} SlotAddedBy(pl: Plan, t: Table, n: nat, a: nat) returns (j: nat)
    requires a < Added(pl, t, n)
    ensures j < n && Adds(pl, t, j) && Added(pl, t, j) == a
  {
    if a < Added(pl, t, n - 1) {
      j := SlotAddedBy(pl, t, n - 1, a);
    } else {
      j := n - 1;
    }
  }

  // A slot without a file was added by some step, if there was none before
  lemma RawAddedBy(pl: Plan, t: Table, n: nat, a: nat) returns (k: nat)
    requires forall i :: 0 <= i < |t.extra| ==> Holds(t.extra[i])
    requires a < |Carried(pl, t, n).extra| && !Holds(Carried(pl, t, n).extra[a])
    ensures k < n && Adds(pl, t, k) && a == |t.extra| + Added(pl, t, k) && Carried(pl, t, n).extra[a] == pl.slot(k)
  {
    AddedSize(pl, t, n);
    TableGrows(pl, t, n);
    assert a >= |t.extra|;
    k := SlotAddedBy(pl, t, n, a - |t.extra|);
    EntryAddedAt(pl, t, k, n);
  }

  /******* Entries *******/

  predicate HasEntry(t: Table, given: nat, key: string) {
    exists i :: given <= i < |t.inherits| && t.inherits[i].key == key
  }

  lemma AddedEntry(t: Table, given: nat, new': string, fd: int, slot: Slot, key: string)
    requires given <= |t.inherits|
    ensures var u := t.Add(new', fd, slot);
            given <= |u.inherits| && (HasEntry(u, given, key) <==> HasEntry(t, given, key) || key == new')
  {
    var u := t.Add(new', fd, slot);
    assert u.inherits[|t.inherits|].key == new';
    if HasEntry(t, given, key) {
      var i :| given <= i < |t.inherits| && t.inherits[i].key == key;
      assert u.inherits[i].key == key;
    }
  }

  // A key that the walk takes gets an entry; one that was taken before keeps what it had
  lemma {:induction false} EntryIff(pl: Plan, t: Table, n: nat, given: nat, key: string)
    requires given <= |t.inherits|
    ensures given <= |Carried(pl, t, n).inherits|
    ensures HasEntry(Carried(pl, t, n), given, key) <==> HasEntry(t, given, key) || (key !in t.fds && Offered(pl, n, key))
  {
    if n > 0 {
      EntryIff(pl, t, n - 1, given, key);
      OfferedNext(pl, n, key);
      CarriedNext(pl, t, n);
      var u, slot := Carried(pl, t, n - 1), pl.slot(n - 1);
      if Adds(pl, t, n - 1) {
        AddedEntry(u, given, pl.key(n - 1), NumberFor(slot, |u.extra|), slot, key);
      }
    }
  }

  /******* Numbers *******/

  predicate Holds(slot: Slot) {
    !slot.NoFile?
  }

  // Every slot that holds a file has its own number
  predicate Numbered(t: Table, given: nat) {
    |t.inherits| == given + |t.extra| && forall i :: 0 <= i < |t.extra| && Holds(t.extra[i]) ==> t.inherits[given + i].fd == 3 + i
  }

  // Some slot of the table holds a file and has this number
  predicate GivenAway(t: Table, given: nat, fd: int)
    requires |t.inherits| == given + |t.extra|
  {
    exists i :: 0 <= i < |t.extra| && Holds(t.extra[i]) && t.inherits[given + i].fd == fd
  }

  // The j-th step adds a file under this number
  predicate AddsAs(pl: Plan, t: Table, j: nat, fd: int) {
    Adds(pl, t, j) && Holds(pl.slot(j)) && fd == t.Next() + Added(pl, t, j)
  }

  predicate AddedAs(pl: Plan, t: Table, n: nat, fd: int) {
    exists j :: 0 <= j < n && AddsAs(pl, t, j, fd)
  }

  /**
   A number belongs to a file of the table after n steps exactly if it did before, or if some step adds a file
   when that number is the next one.
   */
  lemma GivenAwayIff(pl: Plan, t: Table, n: nat, given: nat, fd: int)
    requires |t.inherits| == given + |t.extra| && (forall i :: 0 <= i < |t.extra| ==> Holds(t.extra[i]))
    requires Numbered(Carried(pl, t, n), given)
    ensures GivenAway(Carried(pl, t, n), given, fd) <==> 3 <= fd < t.Next() || AddedAs(pl, t, n, fd)
  {
    var u := Carried(pl, t, n);
    AddedSize(pl, t, n);
    TableGrows(pl, t, n);
    if i :| 0 <= i < |u.extra| && Holds(u.extra[i]) && u.inherits[given + i].fd == fd {
      if i >= |t.extra| {
        var j := SlotAddedBy(pl, t, n, i - |t.extra|);
        EntryAddedAt(pl, t, j, n);
        assert AddsAs(pl, t, j, fd);
      }
    }
    if 3 <= fd < t.Next() {
      assert u.extra[fd - 3] == t.extra[fd - 3];
      assert u.inherits[given + (fd - 3)].fd == fd;
    } else if AddedAs(pl, t, n, fd) {
      var j :| 0 <= j < n && AddsAs(pl, t, j, fd);
      EntryAddedAt(pl, t, j, n);
      assert u.inherits[given + (fd - 3)].fd == fd;
    }
  }

  /******* Tries *******/

  // The last of the first n tries failed: the i-th did, and none after it went well
  predicate LastFails(tries: nat -> bool, opens: nat -> bool, i: nat, n: nat) {
    i < n && tries(i) && !opens(i) && forall j :: i < j < n && tries(j) ==> !opens(j)
  }

  predicate EndsInVain(tries: nat -> bool, opens: nat -> bool, n: nat) {
    exists i :: 0 <= i < n && LastFails(tries, opens, i, n)
  }

  lemma EndsInVainNext(tries: nat -> bool, opens: nat -> bool, n: nat)
    requires n > 0
    ensures EndsInVain(tries, opens, n) <==> if tries(n - 1) then !opens(n - 1) else EndsInVain(tries, opens, n - 1)
  {
    if EndsInVain(tries, opens, n) {
      var i :| 0 <= i < n && LastFails(tries, opens, i, n);
      if i < n - 1 {
        assert LastFails(tries, opens, i, n - 1);
      }
    }
    if tries(n - 1) {
      if !opens(n - 1) { assert LastFails(tries, opens, n - 1, n); }
    } else if EndsInVain(tries, opens, n - 1) {
      var i :| 0 <= i < n - 1 && LastFails(tries, opens, i, n - 1);
      assert LastFails(tries, opens, i, n);
    }
  }
}
