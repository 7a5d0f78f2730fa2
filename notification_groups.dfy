/** `groupNotificationsByCategory` and `getNotificationCategories` of
    shared/src/notifications.ts: the entries of the notification schema, folded in key order
    into an object from category to the list of display items of that category. */
module NotificationGroups {

  import opened Wrappers
  import opened Text
  import opened JsObjects

  datatype BadgeType = Scheduled | Daily | Instant

  datatype Metadata = Metadata(description: string, badge_type: BadgeType, image_url: string, category: string)

  datatype SchemaEntry = SchemaEntry(form_label: string, required: bool, metadata: Metadata)

  /** The item's metadata: the schema's metadata spread, plus camel-case copies of the badge
      type and the image URL. */
  datatype ItemMetadata = ItemMetadata(description: string, badge_type: BadgeType, image_url: string,
                                       category: string, badgeType: BadgeType, imageUrl: string)

  datatype NotificationItem = NotificationItem(id: string, formLabel: string, required: bool, metadata: ItemMetadata)

  function ToItem(key: string, entry: SchemaEntry): NotificationItem {
    var m := entry.metadata;
    NotificationItem(key, entry.form_label, entry.required,
                     ItemMetadata(m.description, m.badge_type, m.image_url, m.category, m.badge_type, m.image_url))
  }

  type Groups = Object<seq<NotificationItem>>

  /** One step of the fold: the category's list is created when missing, then the item is
      pushed onto it. A new category goes after the existing ones. */
  function Push(groups: Groups, category: string, item: NotificationItem): (r: Groups)
    ensures Keys(r) == if category in Keys(groups) then Keys(groups) else Keys(groups) + [category]
  {
    if groups == [] then [(category, [item])]
    else if groups[0].0 == category then
      var r := [(category, groups[0].1 + [item])] + groups[1..];
      assert r[1..] == groups[1..];
      assert Keys(groups) == [groups[0].0] + Keys(groups[1..]);
      assert Keys(r) == [category] + Keys(groups[1..]);
      r
    else
      var rest := Push(groups[1..], category, item);
      var r := [groups[0]] + rest;
      assert r[1..] == rest;
      assert Keys(groups) == [groups[0].0] + Keys(groups[1..]);
      assert Keys(r) == [groups[0].0] + Keys(rest);
      r
  }

  /** After the step, the category's list is its old list (or none) with the item appended;
      every other category keeps its list. */
  lemma {:induction false} PushLookup(groups: Groups, category: string, item: NotificationItem, c: string)
    ensures Get(Push(groups, category, item), c)
            == if c == category then Some(Get(groups, c).GetOr([]) + [item]) else Get(groups, c)
  {
    var r := Push(groups, category, item);
    if groups == [] {
      assert r == [(category, [item])] && r[1..] == [];
      assert Get(groups, c) == None;
      if c == category {
        assert Get(r, c) == Some([item]);
        assert Get(groups, c).GetOr([]) + [item] == [item];
      } else {
        assert Get(r, c) == Get(r[1..], c) == None;
      }
    } else if groups[0].0 == category {
      assert r == [(category, groups[0].1 + [item])] + groups[1..];
      assert r[1..] == groups[1..];
    } else {
      PushLookup(groups[1..], category, item, c);
      assert r == [groups[0]] + Push(groups[1..], category, item);
      assert r[1..] == Push(groups[1..], category, item);
    }
  }

  /** `groupNotificationsByCategory` */
  function Group(schema: Object<SchemaEntry>): Groups {
    if schema == [] then []
    else
      var last := schema[|schema| - 1];
      Push(Group(schema[..|schema| - 1]), last.1.metadata.category, ToItem(last.0, last.1))
  }

  /** `getNotificationCategories` */
  function Categories(schema: Object<SchemaEntry>): seq<string> {
    Keys(Group(schema))
  }

  function CategoryList(schema: Object<SchemaEntry>): (cs: seq<string>)
    ensures |cs| == |schema| && forall i :: 0 <= i < |schema| ==> cs[i] == schema[i].1.metadata.category
  {
    if schema == [] then [] else CategoryList(schema[..|schema| - 1]) + [schema[|schema| - 1].1.metadata.category]
  }

  /** The items of the entries of one category, in schema order. */
  function ItemsOf(schema: Object<SchemaEntry>, category: string): seq<NotificationItem> {
    if schema == [] then []
    else
      var last := schema[|schema| - 1];
      ItemsOf(schema[..|schema| - 1], category)
      + if last.1.metadata.category == category then [ToItem(last.0, last.1)] else []
  }

  /** The categories are the distinct categories of the entries, in first-appearance order. */
  lemma {:induction false} GroupCategories(schema: Object<SchemaEntry>)
    ensures Categories(schema) == Distinct(CategoryList(schema))
  {
    if schema != [] {
      var init := schema[..|schema| - 1];
      var last := schema[|schema| - 1];
      GroupCategories(init);
      GroupLookup(init, last.1.metadata.category);
      assert CategoryList(schema)[..|schema| - 1] == CategoryList(init);
    }
  }

  /** The list of a category is exactly the items of its entries, in schema order; a
      category no entry has gets no list. */
  lemma {:induction false} GroupLookup(schema: Object<SchemaEntry>, c: string)
    ensures c in CategoryList(schema) ==> Get(Group(schema), c) == Some(ItemsOf(schema, c))
    ensures c !in CategoryList(schema) ==> Get(Group(schema), c) == None
  {
    if schema != [] {
      var init := schema[..|schema| - 1];
      var last := schema[|schema| - 1];
      var cat, item := last.1.metadata.category, ToItem(last.0, last.1);
      GroupLookup(init, c);
      PushLookup(Group(init), cat, item, c);
      assert Group(schema) == Push(Group(init), cat, item);
      assert CategoryList(schema) == CategoryList(init) + [cat];
      assert c in CategoryList(schema) <==> c in CategoryList(init) || c == cat;
      if c == cat {
        assert ItemsOf(schema, c) == ItemsOf(init, c) + [item];
        if c !in CategoryList(init) {
          ItemsOfAbsent(init, c);
          assert Get(Group(init), c).GetOr([]) == [] == ItemsOf(init, c);
        } else {
          assert Get(Group(init), c).GetOr([]) == ItemsOf(init, c);
        }
        assert Get(Group(schema), c) == Some(ItemsOf(init, c) + [item]);
      } else {
        assert ItemsOf(schema, c) == ItemsOf(init, c) + [] == ItemsOf(init, c);
        assert Get(Group(schema), c) == Get(Group(init), c);
        assert c in CategoryList(schema) <==> c in CategoryList(init);
      }
    } else {
      assert Group(schema) == [] && CategoryList(schema) == [];
    }
  }

  lemma {:induction false} ItemsOfAbsent(schema: Object<SchemaEntry>, c: string)
    requires c !in CategoryList(schema)
    ensures ItemsOf(schema, c) == []
  {
    if schema != [] {
      var init := schema[..|schema| - 1];
      assert CategoryList(schema) == CategoryList(init) + [schema[|schema| - 1].1.metadata.category];
      ItemsOfAbsent(init, c);
    }
  }

  lemma {:induction false} ItemsOfMembers(schema: Object<SchemaEntry>, category: string, item: NotificationItem)
    ensures item in ItemsOf(schema, category) <==>
              exists i :: 0 <= i < |schema| && schema[i].1.metadata.category == category
                          && ToItem(schema[i].0, schema[i].1) == item
  {
    if schema != [] {
      var init := schema[..|schema| - 1];
      ItemsOfMembers(init, category, item);
      if exists i :: 0 <= i < |init| && init[i].1.metadata.category == category
                     && ToItem(init[i].0, init[i].1) == item {
        var i :| 0 <= i < |init| && init[i].1.metadata.category == category
                 && ToItem(init[i].0, init[i].1) == item;
        assert schema[i] == init[i];
      }
      if exists i :: 0 <= i < |schema| && schema[i].1.metadata.category == category
                     && ToItem(schema[i].0, schema[i].1) == item {
        var i :| 0 <= i < |schema| && schema[i].1.metadata.category == category
                 && ToItem(schema[i].0, schema[i].1) == item;
        if i < |init| {
          assert init[i] == schema[i];
        }
      }
    }
  }

  /** Every entry of the schema (distinct keys) is in exactly one group, the one of its
      category, and no group is empty. */
  lemma EntryInOneGroup(schema: Object<SchemaEntry>, i: int, c: string)
    requires DistinctKeys(schema) && 0 <= i < |schema|
    requires Get(Group(schema), c).Some?
    ensures Get(Group(schema), c).value != []
    ensures ToItem(schema[i].0, schema[i].1) in Get(Group(schema), c).value
            <==> c == schema[i].1.metadata.category
  {
    GroupLookup(schema, c);
    var item := ToItem(schema[i].0, schema[i].1);
    ItemsOfMembers(schema, c, item);
    assert c in CategoryList(schema);
    var k :| 0 <= k < |schema| && CategoryList(schema)[k] == c;
    ItemsOfMembers(schema, c, ToItem(schema[k].0, schema[k].1));
    if item in ItemsOf(schema, c) {
      var j :| 0 <= j < |schema| && schema[j].1.metadata.category == c && ToItem(schema[j].0, schema[j].1) == item;
      assert schema[j].0 == schema[i].0;
      assert j == i;
    }
  }
}
