/** The normal form of a request body that both idempotency checks hash. */
module Normalize {

  /** A parsed body.  Object members are listed in the order the client sent them. */
  datatype Json =
    | Null
    | Undefined
    | Bool(b: bool)
    | Num(n: int)
    | Str(s: string)
    | Arr(items: seq<Json>)
    | Obj(members: seq<Member>)
  datatype Member = Member(key: string, value: Json)

  predicate Nullish(v: Json) {
    v.Null? || v.Undefined?
  }

  /** The order in which keys are sorted. */
  predicate Less(a: string, b: string) {
    b != "" && (a == "" || a[0] < b[0] || (a[0] == b[0] && Less(a[1..], b[1..])))
  }

  function Insert(m: Member, members: seq<Member>): seq<Member> {
    if members == [] then [m]
    else if Less(m.key, members[0].key) then [m] + members
    else [members[0]] + Insert(m, members[1..])
  }

  function Normal(v: Json): Json {
    match v
    case Null => Undefined
    case Arr(items) => Arr(NormalItems(items))
    case Obj(members) => Obj(NormalMembers(members))
    case _ => v
  }

  function NormalItems(items: seq<Json>): seq<Json> {
    if items == [] then [] else [Normal(items[0])] + NormalItems(items[1..])
  }

  /** Assigning to this key sets the prototype of the object instead of a member. */
  const PROTO := "__proto__"

  /** Sorted by key, without the members that normalise to nothing. */
  function NormalMembers(members: seq<Member>): seq<Member> {
    if members == [] then []
    else
      var rest := NormalMembers(members[1..]);
      var n := Normal(members[0].value);
      if n.Undefined? || members[0].key == PROTO then rest else Insert(Member(members[0].key, n), rest)
  }

  // ------------------------------------------------------------------ what it means for two bodies to agree

  predicate Has(members: seq<Member>, key: string) {
    exists i :: 0 <= i < |members| && members[i].key == key
  }

  function Get(members: seq<Member>, key: string): (m: Member)
    requires Has(members, key)
    ensures m in members && m.key == key
  {
    if members[0].key == key then members[0] else Get(members[1..], key)
  }

  predicate DistinctKeys(members: seq<Member>) {
    forall i, j :: 0 <= i < j < |members| ==> members[i].key != members[j].key
  }

  /** No object has a key twice. */
  predicate WellFormed(v: Json) {
    match v
    case Arr(items) => forall i :: 0 <= i < |items| ==> WellFormed(items[i])
    case Obj(members) =>
      && (forall i :: 0 <= i < |members| ==> WellFormed(members[i].value))
      && DistinctKeys(members)
    case _ => true
  }

  /**
    Equal up to the order of members, to null or undefined members and to members with an ignored key,
    at any depth; arrays keep their places.
   */
  predicate Agree(a: Json, b: Json, ignored: set<string>)
    decreases a
  {
    match a
    case Null => Nullish(b)
    case Undefined => Nullish(b)
    case Arr(items) => b.Arr? && |items| == |b.items| && forall i :: 0 <= i < |items| ==>
                Agree(items[i], b.items[i], ignored)
    case Obj(members) =>
      && b.Obj?
      && (forall i :: 0 <= i < |members| && members[i].key !in ignored ==>
            if Has(b.members, members[i].key) then Agree(members[i].value, Get(b.members, members[i].key).value,
                 ignored)
            else Nullish(members[i].value))
      && (forall j :: 0 <= j < |b.members| && b.members[j].key !in ignored && !Has(members, b.members[j].key) ==>
            Nullish(b.members[j].value))
    case _ => a == b
  }

  /** No object, at any depth, has a member of that name. */
  predicate Without(v: Json, key: string) {
    match v
    case Arr(items) => forall i :: 0 <= i < |items| ==> Without(items[i], key)
    case Obj(members) => forall i :: 0 <= i < |members| ==> members[i].key != key && Without(members[i].value, key)
    case _ => true
  }

  // ------------------------------------------------------------------ the order of keys

  lemma {:induction false} LessIsAsymmetric(a: string, b: string)
    requires Less(a, b)
    ensures !Less(b, a) && a != b
  {
    if a != "" && a[0] == b[0] {
      LessIsAsymmetric(a[1..], b[1..]);
    }
  }

  lemma {:induction false} LessIsTotal(a: string, b: string)
    ensures Less(a, b) || a == b || Less(b, a)
  {
    if a != "" && b != "" && a[0] == b[0] {
      LessIsTotal(a[1..], b[1..]);
      assert a == [a[0]] + a[1..] && b == [b[0]] + b[1..];
    }
  }

  lemma {:induction false} LessIsTransitive(a: string, b: string, c: string)
    requires Less(a, b) && Less(b, c)
    ensures Less(a, c)
  {
    if a != "" && a[0] == b[0] && b[0] == c[0] {
      LessIsTransitive(a[1..], b[1..], c[1..]);
    }
  }

  predicate Sorted(members: seq<Member>) {
    |members| <= 1 || (Less(members[0].key, members[1].key) && Sorted(members[1..]))
  }

  lemma {:induction false} HeadIsLeast(members: seq<Member>, i: nat)
    requires Sorted(members) && 0 < i < |members|
    ensures Less(members[0].key, members[i].key)
  {
    if i > 1 {
      HeadIsLeast(members[1..], i - 1);
      LessIsTransitive(members[0].key, members[1].key, members[i].key);
    }
  }

  // ------------------------------------------------------------------ looking up in a normal form

  /** The value at a key; a missing member reads as undefined. */
  function At(members: seq<Member>, key: string): Json {
    if members == [] then Undefined
    else if members[0].key == key then members[0].value
    else At(members[1..], key)
  }

  lemma {:induction false} AtIsGet(members: seq<Member>, key: string)
    ensures Has(members, key) ==> At(members, key) == Get(members, key).value
    ensures !Has(members, key) ==> At(members, key) == Undefined
  {
    if members != [] && members[0].key != key {
      AtIsGet(members[1..], key);
      HasTail(members, key);
    }
  }

  lemma HasTail(members: seq<Member>, key: string)
    requires members != []
    ensures Has(members, key) <==> members[0].key == key || Has(members[1..], key)
  {
    if i :| 0 <= i < |members[1..]| && members[1..][i].key == key {
      assert members[i + 1].key == key;
    }
    if i :| 0 <= i < |members| && members[i].key == key && i > 0 {
      assert members[1..][i - 1].key == key;
    }
  }

  lemma {:induction false} InsertKeepsSorted(m: Member, members: seq<Member>)
    requires Sorted(members) && !Has(members, m.key)
    ensures Sorted(Insert(m, members))
    ensures Insert(m, members)[0] == if members == [] || Less(m.key, members[0].key) then m else members[0]
    ensures forall key :: At(Insert(m, members), key) == if key == m.key then m.value else At(members, key)
    ensures forall x :: x in Insert(m, members) <==> x == m || x in members
  {
    if members != [] && !Less(m.key, members[0].key) {
      LessIsTotal(m.key, members[0].key);
      HasTail(members, m.key);
      InsertKeepsSorted(m, members[1..]);
      assert ([members[0]] + Insert(m, members[1..]))[1..] == Insert(m, members[1..]);
    } else if members != [] {
      assert ([m] + members)[1..] == members;
    }
  }

  /**
    The members of a normal form are sorted, none is undefined, and each key but one reads as the normal form
    of what it was.
   */
  lemma {:induction false} NormalMembersRead(members: seq<Member>)
    requires DistinctKeys(members)
    ensures Sorted(NormalMembers(members))
    ensures forall m :: m in NormalMembers(members) ==> !m.value.Undefined? && Has(members, m.key)
    ensures forall key :: At(NormalMembers(members), key) == if key ==
              PROTO then Undefined else Normal(At(members, key))
  {
    if members != [] {
      var m, rest := members[0], NormalMembers(members[1..]);
      NormalMembersRead(members[1..]);
      forall x | x in rest
        ensures Has(members, x.key) && x.key != m.key
      {
        var i :| 0 <= i < |members[1..]| && members[1..][i].key == x.key;
        assert members[i + 1].key == x.key;
      }
      AtIsGet(members[1..], m.key);
      assert !Has(members[1..], m.key);
      assert !Has(rest, m.key);
      InsertKeepsSorted(Member(m.key, Normal(m.value)), rest);
    }
  }

  /** Two sorted lists without undefined values that read the same everywhere are the same. */
  lemma {:induction false} SortedIsDetermined(a: seq<Member>, b: seq<Member>)
    requires Sorted(a) && Sorted(b)
    requires forall m :: m in a || m in b ==> !m.value.Undefined?
    requires forall key :: At(a, key) == At(b, key)
    ensures a == b
  {
    assert a != [] ==> a[0] in a && At(a, a[0].key) == a[0].value;
    assert b != [] ==> b[0] in b && At(b, b[0].key) == b[0].value;
    if a != [] && b != [] {
      SameHead(a, b);
      SameHead(b, a);
      if a[0].key != b[0].key {
        LessIsAsymmetric(a[0].key, b[0].key);
      }
      assert At(a, a[0].key) == a[0].value && At(b, a[0].key) == b[0].value;
      forall key
        ensures At(a[1..], key) == At(b[1..], key)
      {
        if key == a[0].key {
          NotInTail(a);
          NotInTail(b);
        } else {
          assert At(a, key) == At(b, key);
        }
      }
      SortedIsDetermined(a[1..], b[1..]);
      assert a == [a[0]] + a[1..] && b == [b[0]] + b[1..];
    }
  }

  /** The head of b is found in a, so it is not before the head of a. */
  lemma SameHead(a: seq<Member>, b: seq<Member>)
    requires a != [] && b != [] && Sorted(a) && !b[0].value.Undefined?
    requires At(a, b[0].key) == At(b, b[0].key)
    ensures b[0].key == a[0].key || Less(a[0].key, b[0].key)
  {
    AtIsGet(a, b[0].key);
    assert At(b, b[0].key) == b[0].value;
    var i :| 0 <= i < |a| && a[i].key == b[0].key;
    if i > 0 {
      HeadIsLeast(a, i);
    }
  }

  lemma NotInTail(a: seq<Member>)
    requires a != [] && Sorted(a)
    ensures At(a[1..], a[0].key) == Undefined
  {
    AtIsGet(a[1..], a[0].key);
    if i :| 0 <= i < |a[1..]| && a[1..][i].key == a[0].key {
      HeadIsLeast(a, i + 1);
      LessIsAsymmetric(a[0].key, a[i + 1].key);
    }
  }

  // ------------------------------------------------------------------ main results

  lemma {:induction false} NormalItemsAt(items: seq<Json>)
    ensures |NormalItems(items)| == |items|
    ensures forall i :: 0 <= i < |items| ==> NormalItems(items)[i] == Normal(items[i])
  {
    if items != [] {
      NormalItemsAt(items[1..]);
    }
  }

  /** Two bodies have the same normal form exactly when they agree, whatever they have at `__proto__`. */
  lemma {:induction false} CanonicalForm(a: Json, b: Json)
    requires WellFormed(a) && WellFormed(b)
    ensures Normal(a) == Normal(b) <==> Agree(a, b, {PROTO})
    decreases a
  {
    match a
    case Arr(items) =>
      if b.Arr? {
        NormalItemsAt(items);
        NormalItemsAt(b.items);
        forall i | 0 <= i < |items| && i < |b.items|
          ensures Normal(items[i]) == Normal(b.items[i]) <==> Agree(items[i], b.items[i], {PROTO})
        {
          CanonicalForm(items[i], b.items[i]);
        }
        ArraysAgree(items, b.items);
      }
    case Obj(members) =>
      if b.Obj? {
        forall i | 0 <= i < |members| && Has(b.members, members[i].key)
          ensures Normal(members[i].value) == Normal(Get(b.members, members[i].key).value)
                  <==> Agree(members[i].value, Get(b.members, members[i].key).value, {PROTO})
        {
          CanonicalForm(members[i].value, Get(b.members, members[i].key).value);
        }
        ObjectsAgree(members, b.members);
      }
    case _ =>
  }

  lemma ArraysAgree(a: seq<Json>, b: seq<Json>)
    requires forall i :: 0 <= i < |a| && i < |b| ==> (Normal(a[i]) == Normal(b[i]) <==> Agree(a[i], b[i], {PROTO}))
    ensures NormalItems(a) == NormalItems(b) <==> Agree(Arr(a), Arr(b), {PROTO})
  {
    NormalItemsAt(a);
    NormalItemsAt(b);
    if NormalItems(a) == NormalItems(b) {
      forall i | 0 <= i < |a|
        ensures Agree(a[i], b[i], {PROTO})
      {
        assert NormalItems(a)[i] == NormalItems(b)[i];
      }
    }
  }

  lemma {:induction false} AtOwnKey(members: seq<Member>, i: nat)
    requires DistinctKeys(members) && i < |members|
    ensures At(members, members[i].key) == members[i].value
  {
    if i > 0 {
      AtOwnKey(members[1..], i - 1);
    }
  }

  /** The members of two objects decide alike, key by key. */
  predicate ValuesDecided(a: seq<Member>, b: seq<Member>) {
    forall i :: 0 <= i < |a| && Has(b, a[i].key) ==>
      (Normal(a[i].value) == Normal(Get(b, a[i].key).value) <==> Agree(a[i].value, Get(b, a[i].key).value, {PROTO}))
  }

  lemma AgreeingReadAt(a: seq<Member>, b: seq<Member>, i: nat)
    requires DistinctKeys(a) && ValuesDecided(a, b) && Agree(Obj(a), Obj(b), {PROTO}) && i < |a| && a[i].key != PROTO
    ensures Normal(At(a, a[i].key)) == Normal(At(b, a[i].key))
  {
    AtOwnKey(a, i);
    AtIsGet(b, a[i].key);
  }

  lemma AgreeingRead(a: seq<Member>, b: seq<Member>, key: string)
    requires DistinctKeys(a) && DistinctKeys(b) && ValuesDecided(a, b) && Agree(Obj(a), Obj(b), {PROTO}) && key != PROTO
    ensures Normal(At(a, key)) == Normal(At(b, key))
  {
    if Has(a, key) {
      var i :| 0 <= i < |a| && a[i].key == key;
      AgreeingReadAt(a, b, i);
    } else {
      AtIsGet(a, key);
      AtIsGet(b, key);
      if Has(b, key) {
        var j :| 0 <= j < |b| && b[j].key == key;
        AtOwnKey(b, j);
      }
    }
  }

  lemma EqualObjectsAgree(a: seq<Member>, b: seq<Member>)
    requires DistinctKeys(a) && DistinctKeys(b) && ValuesDecided(a, b) && NormalMembers(a) == NormalMembers(b)
    ensures Agree(Obj(a), Obj(b), {PROTO})
  {
    NormalMembersRead(a);
    NormalMembersRead(b);
    forall i | 0 <= i < |a| && a[i].key != PROTO
      ensures if Has(b, a[i].key) then Agree(a[i].value, Get(b, a[i].key).value, {PROTO}) else Nullish(a[i].value)
    {
      AtOwnKey(a, i);
      AtIsGet(b, a[i].key);
      assert At(NormalMembers(a), a[i].key) == At(NormalMembers(b), a[i].key);
    }
    forall j | 0 <= j < |b| && b[j].key != PROTO && !Has(a, b[j].key)
      ensures Nullish(b[j].value)
    {
      AtOwnKey(b, j);
      AtIsGet(a, b[j].key);
      assert At(NormalMembers(a), b[j].key) == At(NormalMembers(b), b[j].key);
    }
  }

  lemma ObjectsAgree(a: seq<Member>, b: seq<Member>)
    requires DistinctKeys(a) && DistinctKeys(b) && ValuesDecided(a, b)
    ensures NormalMembers(a) == NormalMembers(b) <==> Agree(Obj(a), Obj(b), {PROTO})
  {
    if NormalMembers(a) == NormalMembers(b) {
      EqualObjectsAgree(a, b);
    }
    if Agree(Obj(a), Obj(b), {PROTO}) {
      NormalMembersRead(a);
      NormalMembersRead(b);
      forall key
        ensures At(NormalMembers(a), key) == At(NormalMembers(b), key)
      {
        if key != PROTO {
          AgreeingRead(a, b, key);
        }
      }
      SortedIsDetermined(NormalMembers(a), NormalMembers(b));
    }
  }

  /** Where no body has that member, ignoring it makes no difference. */
  lemma {:induction false} WithoutProto(a: Json, b: Json)
    requires Without(a, PROTO) && Without(b, PROTO)
    ensures Agree(a, b, {PROTO}) <==> Agree(a, b, {})
    decreases a
  {
    match a
    case Arr(items) =>
      if b.Arr? {
        forall i | 0 <= i < |items| && i < |b.items|
          ensures Agree(items[i], b.items[i], {PROTO}) <==> Agree(items[i], b.items[i], {})
        {
          WithoutProto(items[i], b.items[i]);
        }
      }
    case Obj(members) =>
      if b.Obj? {
        forall i | 0 <= i < |members| && Has(b.members, members[i].key)
          ensures Agree(members[i].value, Get(b.members, members[i].key).value, {PROTO})
                  <==> Agree(members[i].value, Get(b.members, members[i].key).value, {})
        {
          WithoutProto(members[i].value, Get(b.members, members[i].key).value);
        }
      }
    case _ =>
  }

  /** So for such bodies the normal form is the same exactly when they agree in everything. */
  lemma CanonicalWithoutProto(a: Json, b: Json)
    requires WellFormed(a) && WellFormed(b) && Without(a, PROTO) && Without(b, PROTO)
    ensures Normal(a) == Normal(b) <==> Agree(a, b, {})
  {
    CanonicalForm(a, b);
    WithoutProto(a, b);
  }

  /** And with it two bodies that do not agree can normalise alike: any value but null is lost there. */
  lemma ProtoIsLost(value: Json)
    requires WellFormed(value) && !Nullish(value)
    ensures var body := Obj([Member(PROTO, value)]);
            WellFormed(body) && Normal(body) == Normal(Obj([])) && !Agree(body, Obj([]), {})
  {
    assert [Member(PROTO, value)][1..] == [];
    assert Obj([Member(PROTO, value)]).members[0].value == value;
  }

  /** The normal form agrees with the body it came from, is itself well formed, and is its own normal form. */
  lemma {:induction false} NormalIsIdempotent(v: Json)
    requires WellFormed(v)
    ensures WellFormed(Normal(v)) && Normal(Normal(v)) == Normal(v) && Agree(v, Normal(v), {PROTO})
  {
    NormalIsWellFormed(v);
    NormalAgrees(v);
    CanonicalForm(v, Normal(v));
  }

  lemma {:induction false} NormalIsWellFormed(v: Json)
    requires WellFormed(v)
    ensures WellFormed(Normal(v))
  {
    match v
    case Arr(items) =>
      NormalItemsAt(items);
      forall i | 0 <= i < |items|
        ensures WellFormed(NormalItems(items)[i])
      {
        NormalIsWellFormed(items[i]);
      }
    case Obj(members) =>
      NormalMembersRead(members);
      SortedIsDistinct(NormalMembers(members));
      forall i | 0 <= i < |NormalMembers(members)|
        ensures WellFormed(NormalMembers(members)[i].value)
      {
        var m := NormalMembers(members)[i];
        AtOwnKey(NormalMembers(members), i);
        var j :| 0 <= j < |members| && members[j].key == m.key;
        AtOwnKey(members, j);
        NormalIsWellFormed(members[j].value);
      }
    case _ =>
  }

  lemma SortedIsDistinct(members: seq<Member>)
    requires Sorted(members)
    ensures DistinctKeys(members)
  {
    if members != [] {
      SortedIsDistinct(members[1..]);
      forall i, j | 0 <= i < j < |members|
        ensures members[i].key != members[j].key
      {
        if i == 0 {
          HeadIsLeast(members, j);
          LessIsAsymmetric(members[0].key, members[j].key);
        } else {
          assert members[1..][i - 1].key != members[1..][j - 1].key;
        }
      }
    }
  }

  lemma {:induction false} NormalAgrees(v: Json)
    requires WellFormed(v)
    ensures Agree(v, Normal(v), {PROTO})
  {
    match v
    case Arr(items) =>
      NormalItemsAt(items);
      forall i | 0 <= i < |items|
        ensures Agree(items[i], NormalItems(items)[i], {PROTO})
      {
        NormalAgrees(items[i]);
      }
    case Obj(members) =>
      var normal := NormalMembers(members);
      NormalMembersRead(members);
      forall i | 0 <= i < |members| && members[i].key != PROTO
        ensures if Has(normal, members[i].key)
                  then Agree(members[i].value, Get(normal, members[i].key).value, {PROTO})
                    else Nullish(members[i].value)
      {
        AtOwnKey(members, i);
        AtIsGet(normal, members[i].key);
        NormalAgrees(members[i].value);
      }
      forall j | 0 <= j < |normal|
        ensures Has(members, normal[j].key)
      {
        assert normal[j] in normal;
      }
    case _ =>
  }
}
