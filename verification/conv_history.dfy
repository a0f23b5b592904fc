/**
 * The conversation history kept in `conv_history.json` under the key
 * `each_conv_lst`, modelled in memory as a sequence of records.  Each of
 * `__addConv`, `__changeConv`, `__updateConv` and `__deleteConv` is a
 * read-modify-write of the whole list; here each is a pure function from
 * the list before to the list after.
 */
module ConvHistory {
  import opened Base

  /** One entry of `conv_data`: a JSON object the store never looks inside. */
  type Message = map<string, string>

  /** One element of `each_conv_lst`. */
  datatype Conversation = Conversation(id: int, title: string, convData: seq<Message>)

  /** Python's IndexError from `list(filter(...))[0]` when no record has the id. */
  datatype Failure = IndexError

  datatype Result<T> = Ok(value: T) | Err(error: Failure)

  const NewChatTitle: string := "New Chat"

  predicate HasId(lst: seq<Conversation>, id: int) {
    exists i :: 0 <= i < |lst| && lst[i].id == id
  }

  ghost predicate UniqueIds(lst: seq<Conversation>) {
    forall i, j :: 0 <= i < j < |lst| ==> lst[i].id != lst[j].id
  }

  /** The sequence of ids, in record order, used to say that an operation leaves the ids alone. */
  function Ids(lst: seq<Conversation>): seq<int> {
    if |lst| == 0 then [] else [lst[0].id] + Ids(lst[1..])
  }

  // ---------------------------------------------------------------- add

  /** The id of `max(lst, key=lambda x: x["id"])`. */
  function MaxId(lst: seq<Conversation>): (m: int)
    requires |lst| > 0
    ensures forall i :: 0 <= i < |lst| ==> lst[i].id <= m
    ensures exists i :: 0 <= i < |lst| && lst[i].id == m
  {
    if |lst| == 1 then lst[0].id
    else
      var rest := MaxId(lst[1..]);
      if rest > lst[0].id then rest else lst[0].id
  }

  /** The id `__addConv` allocates: one more than the largest id, or 0 for an empty list. */
  function NextId(lst: seq<Conversation>): (id: int)
    ensures |lst| == 0 ==> id == 0
    ensures forall i :: 0 <= i < |lst| ==> lst[i].id < id
    ensures |lst| > 0 ==> exists i :: 0 <= i < |lst| && lst[i].id == id - 1
  {
    if |lst| > 0 then MaxId(lst) + 1 else 0
  }

  datatype Added = Added(store: seq<Conversation>, id: int)

  /** `__addConv`: appends an empty "New Chat" record under a fresh id. */
  function AddConv(lst: seq<Conversation>): (r: Added)
    ensures r.id == NextId(lst)
    ensures !HasId(lst, r.id)
    ensures |r.store| == |lst| + 1
    ensures r.store[..|lst|] == lst
    ensures r.store[|lst|] == Conversation(r.id, NewChatTitle, [])
  {
    Added(lst + [Conversation(NextId(lst), NewChatTitle, [])], NextId(lst))
  }

  lemma AddKeepsIdsUnique(lst: seq<Conversation>)
    requires UniqueIds(lst)
    ensures UniqueIds(AddConv(lst).store)
  {
    var r := AddConv(lst);
    forall i, j | 0 <= i < j < |r.store|
      ensures r.store[i].id != r.store[j].id
    {
      if j == |lst| {
        assert r.store[i] == lst[i];
      } else {
        assert r.store[i] == lst[i] && r.store[j] == lst[j];
      }
    }
  }

  // ------------------------------------------------------------- lookup

  /** Position of `list(filter(lambda x: x["id"] == id, lst))[0]`. */
  function FirstIndex(lst: seq<Conversation>, id: int): (r: Option<nat>)
    ensures r.None? <==> !HasId(lst, id)
    ensures r.Some? ==> r.value < |lst| && lst[r.value].id == id
    ensures r.Some? ==> forall j :: 0 <= j < r.value ==> lst[j].id != id
  {
    if |lst| == 0 then None
    else if lst[0].id == id then Some(0)
    else
      match FirstIndex(lst[1..], id)
      case None => None
      case Some(k) => Some(k + 1)
  }

  /** `__changeConv`: the messages handed to the browser for the selected id. */
  function ChangeConv(lst: seq<Conversation>, id: int): (r: Result<seq<Message>>)
    ensures r.Err? <==> !HasId(lst, id)
    ensures r.Ok? ==> exists k :: 0 <= k < |lst| && lst[k].id == id && lst[k].convData == r.value
                                 && (forall j :: 0 <= j < k ==> lst[j].id != id)
  {
    match FirstIndex(lst, id)
    case None => Err(IndexError)
    case Some(k) => Ok(lst[k].convData)
  }

  // ------------------------------------------------------------- update

  /** Python truthiness of the optional title: `None` and `""` are false. */
  predicate TitleGiven(title: Option<string>) {
    title.Some? && |title.value| > 0
  }

  /** Python truthiness of the optional `conv_unit` dict: `None` and `{}` are false. */
  predicate UnitGiven(unit: Option<Message>) {
    unit.Some? && |unit.value| > 0
  }

  /** `__updateConv`: retitles and/or extends the first record with the id. */
  function UpdateConv(lst: seq<Conversation>, id: int, convUnit: Option<Message>, title: Option<string>)
    : (r: Result<seq<Conversation>>)
    ensures r.Err? <==> !HasId(lst, id)
    ensures r.Ok? ==> |r.value| == |lst|
    ensures r.Ok? ==> exists k :: 0 <= k < |lst| && lst[k].id == id
                                 && (forall j :: 0 <= j < k ==> lst[j].id != id)
                                 && (forall j :: 0 <= j < |lst| && j != k ==> r.value[j] == lst[j])
                                 && r.value[k].id == id
                                 && r.value[k].title == (if TitleGiven(title) then title.value else lst[k].title)
                                 && r.value[k].convData == lst[k].convData + (if UnitGiven(convUnit) then [convUnit.value] else [])
  {
    match FirstIndex(lst, id)
    case None => Err(IndexError)
    case Some(k) =>
      var c := lst[k];
      var c1 := if TitleGiven(title) then c.(title := title.value) else c;
      var c2 := if UnitGiven(convUnit) then c1.(convData := c1.convData + [convUnit.value]) else c1;
      Ok(lst[k := c2])
  }

  lemma {:induction false} IdsOfUpdate(lst: seq<Conversation>, k: nat, c: Conversation)
    requires k < |lst| && c.id == lst[k].id
    ensures Ids(lst[k := c]) == Ids(lst)
  {
    if k > 0 {
      IdsOfUpdate(lst[1..], k - 1, c);
      assert lst[k := c][1..] == lst[1..][k - 1 := c];
    }
  }

  /** An update never changes which ids are present, nor their order. */
  lemma UpdateKeepsIds(lst: seq<Conversation>, id: int, convUnit: Option<Message>, title: Option<string>)
    requires HasId(lst, id)
    ensures UpdateConv(lst, id, convUnit, title).Ok?
    ensures Ids(UpdateConv(lst, id, convUnit, title).value) == Ids(lst)
  {
    var k := FirstIndex(lst, id).value;
    var c := lst[k];
    var c1 := if TitleGiven(title) then c.(title := title.value) else c;
    var c2 := if UnitGiven(convUnit) then c1.(convData := c1.convData + [convUnit.value]) else c1;
    IdsOfUpdate(lst, k, c2);
  }

  /** A freshly added conversation can be extended at once, and the message lands in it alone. */
  lemma AddThenAppend(lst: seq<Conversation>, m: Message)
    requires |m| > 0
    ensures var a := AddConv(lst);
            var u := UpdateConv(a.store, a.id, Some(m), None);
            u.Ok? && u.value == lst + [Conversation(a.id, NewChatTitle, [m])]
  {
    var a := AddConv(lst);
    assert a.store[|lst|].id == a.id;
    assert FirstIndex(a.store, a.id) == Some(|lst|);
    assert a.store[|lst|].convData + [m] == [m];
    assert a.store[|lst| := Conversation(a.id, NewChatTitle, [m])] == lst + [Conversation(a.id, NewChatTitle, [m])];
  }

  // ------------------------------------------------------------- delete

  /** `list.remove(x)`: drops the first element equal to `x`; ValueError (None) when there is none. */
  function RemoveFirst(s: seq<Conversation>, x: Conversation): (r: Option<seq<Conversation>>)
    ensures r.None? <==> x !in s
    ensures r.Some? ==> |r.value| + 1 == |s|
    ensures r.Some? ==> exists k :: 0 <= k < |s| && s[k] == x && x !in s[..k] && r.value == s[..k] + s[k + 1..]
  {
    if |s| == 0 then None
    else if s[0] == x then
      assert s[..0] + s[1..] == s[1..];
      Some(s[1..])
    else
      match RemoveFirst(s[1..], x)
      case None => None
      case Some(t) =>
        RemoveFirstShift(s, x, t);
        Some([s[0]] + t)
  }

  /** Removing from the tail of `s` removes from `s` one position further on. */
  lemma RemoveFirstShift<T>(s: seq<T>, x: T, t: seq<T>)
    requires |s| > 0 && s[0] != x
    requires exists k :: 0 <= k < |s[1..]| && s[1..][k] == x && x !in s[1..][..k] && t == s[1..][..k] + s[1..][k + 1..]
    ensures exists k :: 0 <= k < |s| && s[k] == x && x !in s[..k] && [s[0]] + t == s[..k] + s[k + 1..]
  {
    var tl := s[1..];
    var k :| 0 <= k < |tl| && tl[k] == x && x !in tl[..k] && t == tl[..k] + tl[k + 1..];
    RemoveFirstShiftAt(s, x, t, k);
  }

  /** The same, with the position in the tail given. */
  lemma RemoveFirstShiftAt<T>(s: seq<T>, x: T, t: seq<T>, k: nat)
    requires |s| > 0 && s[0] != x
    requires k < |s| - 1 && s[k + 1] == x && x !in s[1..][..k] && t == s[1..][..k] + s[1..][k + 1..]
    ensures s[k + 1] == x && x !in s[..k + 1] && [s[0]] + t == s[..k + 1] + s[k + 2..]
  {
    var tl := s[1..];
    assert s[..k + 1] == [s[0]] + tl[..k];
    assert s[k + 2..] == tl[k + 1..];
  }

  /** One removal takes away exactly one copy of the element. */
  lemma {:induction false} RemoveFirstMultiset(s: seq<Conversation>, x: Conversation)
    requires RemoveFirst(s, x).Some?
    ensures multiset(RemoveFirst(s, x).value) + multiset{x} == multiset(s)
  {
    assert s == [s[0]] + s[1..];
    if s[0] != x {
      RemoveFirstMultiset(s[1..], x);
    }
  }

  /** `for obj in objs: lst.remove(obj)`, failing as soon as one removal fails. */
  function RemoveEach(s: seq<Conversation>, objs: seq<Conversation>): (r: Option<seq<Conversation>>)
    ensures r.Some? ==> |r.value| + |objs| == |s|
    decreases |objs|
  {
    if |objs| == 0 then Some(s)
    else
      match RemoveFirst(s, objs[0])
      case None => None
      case Some(t) =>
        RemoveEach(t, objs[1..])
  }

  /** The loop takes away exactly one copy of each object it removes, and nothing else. */
  lemma {:induction false} RemoveEachMultiset(s: seq<Conversation>, objs: seq<Conversation>)
    requires RemoveEach(s, objs).Some?
    ensures multiset(RemoveEach(s, objs).value) + multiset(objs) == multiset(s)
    decreases |objs|
  {
    if |objs| > 0 {
      var o := objs[0];
      assert multiset(objs) == multiset{o} + multiset(objs[1..]) by {
        assert objs == [o] + objs[1..];
      }
      match RemoveFirst(s, o)
      case Some(t) =>
        assert RemoveEach(s, objs) == RemoveEach(t, objs[1..]);
        var rest := RemoveEach(t, objs[1..]).value;
        RemoveFirstMultiset(s, o);
        RemoveEachMultiset(t, objs[1..]);
        MultisetChain(multiset(rest), multiset(objs[1..]), o, multiset(t), multiset(s));
    }
  }

  lemma MultisetChain<T>(r: multiset<T>, o: multiset<T>, x: T, t: multiset<T>, s: multiset<T>)
    requires r + o == t && t + multiset{x} == s
    ensures r + (multiset{x} + o) == s
  {
  }

  /** The loop fails exactly when the objects, counted with repetition, are not all in the list. */
  lemma {:induction false} RemoveEachSucceeds(s: seq<Conversation>, objs: seq<Conversation>)
    ensures RemoveEach(s, objs).Some? <==> multiset(objs) <= multiset(s)
    decreases |objs|
  {
    if |objs| > 0 {
      var o := objs[0];
      assert multiset(objs) == multiset{o} + multiset(objs[1..]) by {
        assert objs == [o] + objs[1..];
      }
      match RemoveFirst(s, o)
      case None =>
        assert RemoveEach(s, objs).None?;
        MissingBlocksInclusion(multiset(s), o, multiset(objs[1..]));
      case Some(t) =>
        assert RemoveEach(s, objs) == RemoveEach(t, objs[1..]);
        RemoveFirstMultiset(s, o);
        RemoveEachSucceeds(t, objs[1..]);
        InclusionAfterRemoval(multiset(t), o, multiset(objs[1..]), multiset(s));
    }
  }

  lemma InclusionAfterRemoval<T>(t: multiset<T>, o: T, rest: multiset<T>, s: multiset<T>)
    requires t + multiset{o} == s
    ensures multiset{o} + rest <= s <==> rest <= t
  {
    if rest <= t {
      assert multiset{o} + rest <= multiset{o} + t;
    }
    if multiset{o} + rest <= s {
      forall x
        ensures rest[x] <= t[x]
      {
        assert (multiset{o} + rest)[x] <= s[x];
      }
    }
  }

  lemma MissingBlocksInclusion<T>(s: multiset<T>, o: T, rest: multiset<T>)
    requires o !in s
    ensures !(multiset{o} + rest <= s)
  {
    assert (multiset{o} + rest)[o] >= 1;
  }

  /** `list(filter(lambda x: x["id"] in id_lst, lst))`. */
  function Doomed(lst: seq<Conversation>, idLst: seq<int>): (r: seq<Conversation>)
    ensures |r| <= |lst|
    ensures forall c :: c in r <==> c in lst && c.id in idLst
  {
    if |lst| == 0 then []
    else (if lst[0].id in idLst then [lst[0]] else []) + Doomed(lst[1..], idLst)
  }

  /** Reference definition: the records whose id is not listed, in their original order. */
  function Survivors(lst: seq<Conversation>, idLst: seq<int>): seq<Conversation> {
    if |lst| == 0 then []
    else (if lst[0].id in idLst then [] else [lst[0]]) + Survivors(lst[1..], idLst)
  }

  /** The filter keeps duplicates: together with the survivors it accounts for every record. */
  lemma {:induction false} DoomedPartition(lst: seq<Conversation>, idLst: seq<int>)
    ensures multiset(Doomed(lst, idLst)) + multiset(Survivors(lst, idLst)) == multiset(lst)
  {
    if |lst| > 0 {
      DoomedPartition(lst[1..], idLst);
      assert lst == [lst[0]] + lst[1..];
    }
  }

  /** The filter keeps list order: it distributes over concatenation. */
  lemma {:induction false} DoomedAppend(a: seq<Conversation>, b: seq<Conversation>, idLst: seq<int>)
    ensures Doomed(a + b, idLst) == Doomed(a, idLst) + Doomed(b, idLst)
  {
    if |a| == 0 {
      assert a + b == b;
    } else {
      assert (a + b)[1..] == a[1..] + b;
      DoomedAppend(a[1..], b, idLst);
    }
  }

  lemma {:induction false} RemoveFirstSkipsHead(c: Conversation, t: seq<Conversation>, o: Conversation)
    requires o != c
    ensures RemoveFirst([c] + t, o) == (match RemoveFirst(t, o) case None => None case Some(u) => Some([c] + u))
  {
    assert ([c] + t)[1..] == t;
  }

  /** Removing doomed records never touches a head record that survives. */
  lemma {:induction false} RemoveEachSkipsHead(c: Conversation, t: seq<Conversation>, objs: seq<Conversation>, idLst: seq<int>)
    requires c.id !in idLst
    requires forall i :: 0 <= i < |objs| ==> objs[i].id in idLst
    ensures RemoveEach([c] + t, objs) == (match RemoveEach(t, objs) case None => None case Some(u) => Some([c] + u))
    decreases |objs|
  {
    if |objs| > 0 {
      RemoveFirstSkipsHead(c, t, objs[0]);
      match RemoveFirst(t, objs[0])
      case None =>
      case Some(u) =>
        RemoveEachSkipsHead(c, u, objs[1..], idLst);
    }
  }

  lemma {:induction false} DoomedAreListed(lst: seq<Conversation>, idLst: seq<int>)
    ensures forall i :: 0 <= i < |Doomed(lst, idLst)| ==> Doomed(lst, idLst)[i].id in idLst
  {
    if |lst| > 0 {
      DoomedAreListed(lst[1..], idLst);
    }
  }

  /** The removal loop of `__deleteConv` succeeds and leaves exactly the survivors. */
  lemma {:induction false} RemovalIsFilter(lst: seq<Conversation>, idLst: seq<int>)
    ensures RemoveEach(lst, Doomed(lst, idLst)) == Some(Survivors(lst, idLst))
  {
    if |lst| > 0 {
      var c, t := lst[0], lst[1..];
      assert lst == [c] + t;
      RemovalIsFilter(t, idLst);
      if c.id in idLst {
        var d := Doomed(t, idLst);
        assert Doomed(lst, idLst) == [c] + d;
        assert RemoveFirst(lst, c) == Some(t);
        assert ([c] + d)[1..] == d;
        assert RemoveEach(lst, [c] + d) == RemoveEach(t, d);
        assert Survivors(lst, idLst) == Survivors(t, idLst);
      } else {
        assert Doomed(lst, idLst) == Doomed(t, idLst);
        assert Survivors(lst, idLst) == [c] + Survivors(t, idLst);
        DoomedAreListed(t, idLst);
        RemoveEachSkipsHead(c, t, Doomed(t, idLst), idLst);
      }
    }
  }

  /** `__deleteConv`: removes every record whose id is listed. */
  function DeleteConv(lst: seq<Conversation>, idLst: seq<int>): (r: seq<Conversation>)
    ensures r == Survivors(lst, idLst)
  {
    RemovalIsFilter(lst, idLst);
    RemoveEach(lst, Doomed(lst, idLst)).value
  }

  lemma {:induction false} SurvivorsSound(lst: seq<Conversation>, idLst: seq<int>)
    ensures forall c :: c in Survivors(lst, idLst) ==> c in lst && c.id !in idLst
  {
    if |lst| > 0 {
      SurvivorsSound(lst[1..], idLst);
    }
  }

  lemma {:induction false} SurvivorsComplete(lst: seq<Conversation>, idLst: seq<int>)
    ensures forall i :: 0 <= i < |lst| && lst[i].id !in idLst ==> lst[i] in Survivors(lst, idLst)
  {
    if |lst| > 0 {
      SurvivorsComplete(lst[1..], idLst);
      forall i | 0 < i < |lst| && lst[i].id !in idLst
        ensures lst[i] in Survivors(lst, idLst)
      {
        assert lst[1..][i - 1] == lst[i];
      }
    }
  }

  /** Deleting over a split list deletes from each part: relative order is kept. */
  lemma {:induction false} SurvivorsAppend(a: seq<Conversation>, b: seq<Conversation>, idLst: seq<int>)
    ensures Survivors(a + b, idLst) == Survivors(a, idLst) + Survivors(b, idLst)
  {
    if |a| > 0 {
      SurvivorsAppend(a[1..], b, idLst);
      assert (a + b)[1..] == a[1..] + b;
    } else {
      assert a + b == b;
    }
  }

  /** A record is gone after a delete exactly when its id was listed. */
  lemma DeleteRemovesExactlyListed(lst: seq<Conversation>, idLst: seq<int>)
    ensures forall c :: c in DeleteConv(lst, idLst) ==> c in lst && c.id !in idLst
    ensures forall i :: 0 <= i < |lst| && lst[i].id !in idLst ==> lst[i] in DeleteConv(lst, idLst)
  {
    SurvivorsSound(lst, idLst);
    SurvivorsComplete(lst, idLst);
  }

  /** Listing an id that no record carries changes nothing. */
  lemma {:induction false} DeleteIgnoresAbsentIds(lst: seq<Conversation>, idLst: seq<int>, x: int)
    requires !HasId(lst, x)
    ensures DeleteConv(lst, idLst + [x]) == DeleteConv(lst, idLst)
  {
    if |lst| > 0 {
      assert !HasId(lst[1..], x);
      DeleteIgnoresAbsentIds(lst[1..], idLst, x);
      assert lst[0].id in idLst + [x] <==> lst[0].id in idLst;
    }
  }

  lemma {:induction false} SurvivorsKeepUnique(lst: seq<Conversation>, idLst: seq<int>)
    requires UniqueIds(lst)
    ensures UniqueIds(Survivors(lst, idLst))
  {
    if |lst| > 0 {
      assert UniqueIds(lst[1..]);
      SurvivorsKeepUnique(lst[1..], idLst);
      SurvivorsSound(lst[1..], idLst);
      var rest := Survivors(lst[1..], idLst);
      if lst[0].id !in idLst {
        forall j | 0 <= j < |rest|
          ensures rest[j].id != lst[0].id
        {
          assert rest[j] in lst[1..];
          var m :| 0 <= m < |lst[1..]| && lst[1..][m] == rest[j];
          assert lst[m + 1] == rest[j];
        }
      }
    }
  }

  /** Deleting keeps the remaining ids unique. */
  lemma DeleteKeepsIdsUnique(lst: seq<Conversation>, idLst: seq<int>)
    requires UniqueIds(lst)
    ensures UniqueIds(DeleteConv(lst, idLst))
  {
    SurvivorsKeepUnique(lst, idLst);
  }
}
