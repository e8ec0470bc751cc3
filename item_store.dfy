/** The rows an item owns and their cascading deletion: `has_many
    :purchase_requests, dependent: :destroy` and `has_many :comments,
    dependent: :destroy` (app/models/item.rb lines 6 and 8). Destroying an
    item first destroys each of its purchase requests, then each of its
    comments, then deletes the item's own row. */
module ItemStore {
  import opened Items
  import opened Relation

  /** A request by `user` to buy `item`. */
  datatype PurchaseRequest = PurchaseRequest(id: nat, user: UserId, item: ItemId)

  /** A comment on `item`. */
  datatype Comment = Comment(id: nat, user: UserId, item: ItemId)

  function ItemKept(id: ItemId): Item -> bool {
    (i: Item) => i.id != id
  }

  function RequestKept(id: ItemId): PurchaseRequest -> bool {
    (r: PurchaseRequest) => r.item != id
  }

  function CommentKept(id: ItemId): Comment -> bool {
    (c: Comment) => c.item != id
  }

  predicate HasItem(items: seq<Item>, id: ItemId) {
    exists i :: i in items && i.id == id
  }

  /** Every purchase request and every comment belongs to a stored item. */
  predicate NoOrphans(items: seq<Item>, requests: seq<PurchaseRequest>, comments: seq<Comment>) {
    && (forall r :: r in requests ==> HasItem(items, r.item))
    && (forall c :: c in comments ==> HasItem(items, c.item))
  }

  /** After the cascade nothing refers to the destroyed item, and every row
      that belonged to another item is still there. */
  lemma CascadeRemovesExactlyDependents(
    requests: seq<PurchaseRequest>, comments: seq<Comment>, id: ItemId,
    r: PurchaseRequest, c: Comment)
    ensures r in Where(requests, RequestKept(id)) <==> r in requests && r.item != id
    ensures c in Where(comments, CommentKept(id)) <==> c in comments && c.item != id
  {
  }

  /** Destroying an item cannot create orphans: if every request and comment
      belonged to a stored item before, they still do after. */
  lemma CascadeKeepsNoOrphans(
    items: seq<Item>, requests: seq<PurchaseRequest>, comments: seq<Comment>, id: ItemId)
    requires NoOrphans(items, requests, comments)
    ensures NoOrphans(Where(items, ItemKept(id)), Where(requests, RequestKept(id)),
                      Where(comments, CommentKept(id)))
  {
    var items' := Where(items, ItemKept(id));
    forall r | r in Where(requests, RequestKept(id))
      ensures HasItem(items', r.item)
    {
      WhereMembers(requests, RequestKept(id), r);
      var i :| i in items && i.id == r.item;
      WhereMembers(items, ItemKept(id), i);
    }
    forall c | c in Where(comments, CommentKept(id))
      ensures HasItem(items', c.item)
    {
      WhereMembers(comments, CommentKept(id), c);
      var i :| i in items && i.id == c.item;
      WhereMembers(items, ItemKept(id), i);
    }
  }

  /** The tables of items, purchase requests and comments. */
  class Store {
    var items: seq<Item>
    var purchaseRequests: seq<PurchaseRequest>
    var comments: seq<Comment>

    predicate Valid()
      reads this
    {
      NoOrphans(items, purchaseRequests, comments)
    }

    constructor ()
      ensures items == [] && purchaseRequests == [] && comments == []
      ensures Valid()
    {
      items, purchaseRequests, comments := [], [], [];
    }

    /** Destroys every purchase request of item `id`: the loop goes through
        the requests one row at a time, keeps each row not on `id`, and the
        table is then written once. */
    method DestroyPurchaseRequestsOf(id: ItemId)
      modifies this
      ensures purchaseRequests == Where(old(purchaseRequests), RequestKept(id))
      ensures items == old(items) && comments == old(comments)
      ensures old(Valid()) ==> Valid()
    {
      var rs := purchaseRequests;
      var kept: seq<PurchaseRequest> := [];
      var k := 0;
      while k < |rs|
        invariant 0 <= k <= |rs|
        invariant kept == Where(rs[..k], RequestKept(id))
      {
        assert rs[..k + 1][..k] == rs[..k];
        if rs[k].item != id {
          kept := kept + [rs[k]];
        }
        k := k + 1;
      }
      assert rs[..k] == rs;
      purchaseRequests := kept;
      WhereAllMembers(rs, RequestKept(id));
    }

    /** Destroys every comment on item `id`: the loop goes through the
        comments one row at a time, keeps each row not on `id`, and the
        table is then written once. */
    method DestroyCommentsOf(id: ItemId)
      modifies this
      ensures comments == Where(old(comments), CommentKept(id))
      ensures items == old(items) && purchaseRequests == old(purchaseRequests)
      ensures old(Valid()) ==> Valid()
    {
      var cs := comments;
      var kept: seq<Comment> := [];
      var k := 0;
      while k < |cs|
        invariant 0 <= k <= |cs|
        invariant kept == Where(cs[..k], CommentKept(id))
      {
        assert cs[..k + 1][..k] == cs[..k];
        if cs[k].item != id {
          kept := kept + [cs[k]];
        }
        k := k + 1;
      }
      assert cs[..k] == cs;
      comments := kept;
      WhereAllMembers(cs, CommentKept(id));
    }

    /** `item.destroy`: the two cascades in declaration order, then the
        item's own row. Other items and their rows are untouched. */
    method Destroy(id: ItemId)
      modifies this
      ensures purchaseRequests == Where(old(purchaseRequests), RequestKept(id))
      ensures comments == Where(old(comments), CommentKept(id))
      ensures items == Where(old(items), ItemKept(id))
      ensures forall r :: r in purchaseRequests ==> r.item != id
      ensures forall c :: c in comments ==> c.item != id
      ensures old(Valid()) ==> Valid()
    {
      ghost var items0, requests0, comments0 := items, purchaseRequests, comments;
      DestroyPurchaseRequestsOf(id);
      DestroyCommentsOf(id);
      items := Where(items, ItemKept(id));
      forall r | r in purchaseRequests ensures r.item != id {
        WhereMembers(requests0, RequestKept(id), r);
      }
      forall c | c in comments ensures c.item != id {
        WhereMembers(comments0, CommentKept(id), c);
      }
      if NoOrphans(items0, requests0, comments0) {
        CascadeKeepsNoOrphans(items0, requests0, comments0, id);
      }
    }
  }
}
