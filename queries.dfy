/** The discussion store (src/db/queries.ts): one discussion per unordered pair of
    user names, found under a canonical key, holding an append-only message list.
    The MongoDB collection is abstracted as a map from the canonical key to the
    one document stored under it. */
module Discussion {
  import opened Wrappers
  import opened ChatTypes

  /** String order of `Array.prototype.sort` without a comparator: element-wise
      on characters, a proper prefix coming first. */
  predicate LexLess(a: string, b: string)
    ensures LexLess(a, b) ==> a != b
  {
    if b == [] then false
    else if a == [] then true
    else if a[0] != b[0] then a[0] < b[0]
    else LexLess(a[1..], b[1..])
  }

  lemma {:induction false} LexLessAsymmetric(a: string, b: string)
    requires LexLess(a, b)
    ensures !LexLess(b, a)
  {
    if a != [] && b != [] && a[0] == b[0] {
      LexLessAsymmetric(a[1..], b[1..]);
    }
  }

  lemma {:induction false} LexLessTransitive(a: string, b: string, c: string)
    requires LexLess(a, b) && LexLess(b, c)
    ensures LexLess(a, c)
  {
    if a != [] && a[0] == b[0] && b[0] == c[0] {
      LexLessTransitive(a[1..], b[1..], c[1..]);
    }
  }

  /** Two strings neither of which precedes the other are equal. */
  lemma {:induction false} LexLessTrichotomous(a: string, b: string)
    requires !LexLess(a, b) && !LexLess(b, a)
    ensures a == b
  {
    if a != [] && b != [] {
      LexLessTrichotomous(a[1..], b[1..]);
      assert a == [a[0]] + a[1..] && b == [b[0]] + b[1..];
    }
  }

  /** `sortUserNames`: the two names in non-decreasing order. The sort is stable,
      so the names are swapped only when the second strictly precedes the first. */
  function SortUserNames(u1: string, u2: string): (names: (string, string))
    ensures names == (u1, u2) || names == (u2, u1)
    ensures !LexLess(names.1, names.0)
  {
    if LexLess(u2, u1) then
      LexLessAsymmetric(u2, u1);
      (u2, u1)
    else
      (u1, u2)
  }

  /** The canonical key does not depend on the order the two names are given in. */
  lemma {:induction false} SortUserNamesOrderIndependent(a: string, b: string)
    ensures SortUserNames(a, b) == SortUserNames(b, a)
  {
    if LexLess(a, b) {
      LexLessAsymmetric(a, b);
    } else if !LexLess(b, a) {
      LexLessTrichotomous(a, b);
    }
  }

  /** The canonical key is the only ordered arrangement of the two names. */
  lemma {:induction false} SortUserNamesUnique(a: string, b: string, names: (string, string))
    requires names == (a, b) || names == (b, a)
    requires !LexLess(names.1, names.0)
    ensures names == SortUserNames(a, b)
  {
    var r := SortUserNames(a, b);
    if names != r {
      assert names == (r.1, r.0);
      LexLessTrichotomous(r.0, r.1);
    }
  }

  /** A stored discussion (src/db/schema.ts). `id` stands for the `_id` the
      database assigns on insertion. */
  datatype DiscussionSchema = DiscussionSchema(id: nat, userName1: string, userName2: string, messages: seq<ChatMessage>)

  /** The `discussions` collection. */
  class DiscussionCollection {
    var docs: map<(string, string), DiscussionSchema>
    /** The next identifier the database hands out on insertion. */
    var nextId: nat

    /** Every document is stored under its own, sorted pair of names and carries an
        identifier handed out earlier; identifiers are distinct. */
    ghost predicate Valid()
      reads this
    {
      && (forall k :: k in docs ==>
            && docs[k].userName1 == k.0 && docs[k].userName2 == k.1
            && !LexLess(k.1, k.0)
            && docs[k].id < nextId)
      && (forall k, k' :: k in docs && k' in docs && docs[k].id == docs[k'].id ==> k == k')
    }

    constructor ()
      ensures Valid() && docs == map[]
    {
      docs := map[];
      nextId := 0;
    }

    /** `getDiscussion`: the discussion between the two users, or the error it throws
        when there is none. A function: it cannot change the store. */
    function GetDiscussion(userName1: string, userName2: string): (r: Result<DiscussionSchema, string>)
      reads this
      requires Valid()
      ensures r.Failure? <==> SortUserNames(userName1, userName2) !in docs
      ensures r.Failure? ==> r.error == "Failed to retrieve discussion"
      ensures r.Success? ==> r.value in docs.Values
      ensures r.Success? ==> (r.value.userName1, r.value.userName2) == SortUserNames(userName1, userName2)
    {
      var key := SortUserNames(userName1, userName2);
      if key in docs then Success(docs[key]) else Failure("Failed to retrieve discussion")
    }

    /** `createIfMissing`: the existing discussion, untouched, or a newly inserted one
        with no messages. */
    method CreateIfMissing(userName1: string, userName2: string) returns (d: DiscussionSchema)
      requires Valid()
      modifies this
      ensures Valid()
      ensures GetDiscussion(userName1, userName2) == Success(d)
      ensures SortUserNames(userName1, userName2) in old(docs) ==>
                d == old(docs)[SortUserNames(userName1, userName2)] && unchanged(this)
      ensures SortUserNames(userName1, userName2) !in old(docs) ==>
                && docs == old(docs)[SortUserNames(userName1, userName2) := d]
                && d.messages == []
                && d.id !in set k | k in old(docs) :: old(docs)[k].id
    {
      var (u1, u2) := SortUserNames(userName1, userName2);
      if (u1, u2) in docs {
        d := docs[(u1, u2)];
        return;
      }
      d := DiscussionSchema(nextId, u1, u2, []);
      docs := docs[(u1, u2) := d];
      nextId := nextId + 1;
    }

    /** `addMessage`: appends to the discussion's message list; without an upsert,
        nothing happens when the discussion does not exist. */
    method AddMessage(userName1: string, userName2: string, message: ChatMessage)
      requires Valid()
      modifies this
      ensures Valid() && nextId == old(nextId)
      ensures var key := SortUserNames(userName1, userName2);
              if key in old(docs) then
                docs == old(docs)[key := old(docs)[key].(messages := old(docs)[key].messages + [message])]
              else
                docs == old(docs)
    {
      var (u1, u2) := SortUserNames(userName1, userName2);
      if (u1, u2) in docs {
        var found := docs[(u1, u2)];
        docs := docs[(u1, u2) := found.(messages := found.messages + [message])];
      }
    }
  }

  /** Looking a discussion up gives the same answer whichever order the names come in. */
  lemma GetDiscussionOrderIndependent(c: DiscussionCollection, a: string, b: string)
    requires c.Valid()
    ensures c.GetDiscussion(a, b) == c.GetDiscussion(b, a)
  {
    SortUserNamesOrderIndependent(a, b);
  }

  /** Creating twice, with the names in either order, finds the first creation's
      discussion the second time and leaves one entry for the pair. */
  method CreateTwice(c: DiscussionCollection, a: string, b: string) returns (d1: DiscussionSchema, d2: DiscussionSchema)
    requires c.Valid()
    modifies c
    ensures c.Valid() && d1 == d2
    ensures c.docs == old(c.docs)[SortUserNames(a, b) := d1]
  {
    d1 := c.CreateIfMissing(a, b);
    SortUserNamesOrderIndependent(a, b);
    d2 := c.CreateIfMissing(b, a);
  }
}
