/** Character cards: the card, binding, statistics and group-data tables
    of the database, held in memory as rows in insertion order, and the
    operations that create, update and remove rows.  A query returns the
    matching rows in order; `rows[0] || null` is the first of them.  Row
    ids and timestamps are left out; attributes are kept as the record the
    stored JSON text denotes. */
module Cards {
  import opened Wrappers
  import opened OrderedMaps

  type Attrs = seq<(string, int)>

  datatype User = User(userId: string, platform: string)

  datatype Card = Card(user: User, cardName: string, cardType: string, isActive: bool, attributes: Attrs)

  datatype Binding = Binding(user: User, guildId: string, cardName: string)

  datatype GroupData = GroupData(guildId: string, dataKey: string, dataValue: string)

  /** A query: the rows satisfying `p`, in table order. */
  function Where<T(!new)>(rows: seq<T>, p: T -> bool): (r: seq<T>)
    ensures |r| <= |rows|
    ensures forall x :: x in r <==> x in rows && p(x)
  {
    if rows == [] then []
    else Where(rows[..|rows| - 1], p) + (if p(rows[|rows| - 1]) then [rows[|rows| - 1]] else [])
  }

  lemma WhereEmpty<T(!new)>(rows: seq<T>, p: T -> bool)
    requires forall x :: x in rows ==> !p(x)
    ensures Where(rows, p) == []
  {
  }

  /** The first row satisfying `p`, or none. */
  function First<T(!new)>(rows: seq<T>, p: T -> bool): (r: Option<T>)
    ensures r.None? <==> forall x :: x in rows ==> !p(x)
    ensures r.Some? ==> r.value in rows && p(r.value)
  {
    var w := Where(rows, p);
    if w == [] then None else (assert w[0] in w; Some(w[0]))
  }

  /** An update: every row satisfying `p` is replaced by `f` of it. */
  function SetWhere<T>(rows: seq<T>, p: T -> bool, f: T -> T): (r: seq<T>)
    ensures |r| == |rows|
    ensures forall i :: 0 <= i < |rows| ==> r[i] == if p(rows[i]) then f(rows[i]) else rows[i]
  {
    seq(|rows|, i requires 0 <= i < |rows| => if p(rows[i]) then f(rows[i]) else rows[i])
  }

  lemma SetWhereIn<T(!new)>(rows: seq<T>, p: T -> bool, f: T -> T, x: T)
    requires x in SetWhere(rows, p, f)
    ensures exists y :: y in rows && x == if p(y) then f(y) else y
  {
    var r := SetWhere(rows, p, f);
    var i :| 0 <= i < |r| && r[i] == x;
    assert rows[i] in rows;
  }

  /** Appending a row changes the first match only when there was none. */
  lemma {:induction false} FirstSnoc<T(!new)>(rows: seq<T>, p: T -> bool, x: T)
    ensures First(rows + [x], p) == if First(rows, p).Some? then First(rows, p) else if p(x) then Some(x) else None
  {
    var s := rows + [x];
    assert s[..|s| - 1] == rows;
    var w := Where(rows, p);
    assert Where(s, p) == w + (if p(x) then [x] else []);
    if w != [] {
      assert (w + (if p(x) then [x] else []))[0] == w[0];
    }
  }

  function Named(u: User, name: string): Card -> bool {
    (c: Card) => c.user == u && c.cardName == name
  }

  function Owned(u: User): Card -> bool {
    (c: Card) => c.user == u
  }

  function Active(u: User): Card -> bool {
    (c: Card) => c.user == u && c.isActive
  }

  /** A user never has two different cards under one name. */
  predicate UniqueNames(cards: seq<Card>) {
    forall c, d :: c in cards && d in cards && c.user == d.user && c.cardName == d.cardName ==> c == d
  }

  /** Under unique names, the card found by name is the only one of that name. */
  lemma FoundUnique(cards: seq<Card>, c: Card)
    requires UniqueNames(cards) && c in cards
    ensures First(cards, Named(c.user, c.cardName)) == Some(c)
  {
  }

  /** An update that keeps every row's owner and name keeps names unique. */
  lemma SetWhereUnique(cards: seq<Card>, p: Card -> bool, f: Card -> Card)
    requires UniqueNames(cards)
    requires forall c :: f(c).user == c.user && f(c).cardName == c.cardName
    ensures UniqueNames(SetWhere(cards, p, f))
  {
    var r := SetWhere(cards, p, f);
    forall c, d | c in r && d in r && c.user == d.user && c.cardName == d.cardName
      ensures c == d
    {
      SetWhereIn(cards, p, f, c);
      SetWhereIn(cards, p, f, d);
    }
  }

  /** Renaming a user's card to a name the user does not use keeps names
      unique, and leaves no card under the old name. */
  lemma RenameUnique(cards: seq<Card>, u: User, oldName: string, newName: string)
    requires UniqueNames(cards)
    requires forall c :: c in cards ==> !(c.user == u && c.cardName == newName)
    ensures UniqueNames(SetWhere(cards, Named(u, oldName), (c: Card) => c.(cardName := newName)))
    ensures forall c :: c in SetWhere(cards, Named(u, oldName), (c: Card) => c.(cardName := newName)) ==>
      !(c.user == u && c.cardName == oldName)
  {
    var f := (c: Card) => c.(cardName := newName);
    var r := SetWhere(cards, Named(u, oldName), f);
    forall c, d | c in r && d in r && c.user == d.user && c.cardName == d.cardName
      ensures c == d
    {
      SetWhereIn(cards, Named(u, oldName), f, c);
      SetWhereIn(cards, Named(u, oldName), f, d);
    }
    forall c | c in r ensures !(c.user == u && c.cardName == oldName) {
      SetWhereIn(cards, Named(u, oldName), f, c);
    }
  }

  /** Appending a card under a name its user does not use keeps names unique. */
  lemma AppendUnique(cards: seq<Card>, card: Card)
    requires UniqueNames(cards)
    requires forall c :: c in cards ==> !(c.user == card.user && c.cardName == card.cardName)
    ensures UniqueNames(cards + [card])
  {
  }

  /** Appending a card under a name its user does not use keeps names
      unique and makes it the card of that name; marked active exactly when
      its user had no cards, it is also the user's active card. */
  lemma AppendCard(cards: seq<Card>, card: Card)
    requires UniqueNames(cards)
    requires First(cards, Named(card.user, card.cardName)).None?
    requires card.isActive <==> Where(cards, Owned(card.user)) == []
    ensures UniqueNames(cards + [card])
    ensures First(cards + [card], Named(card.user, card.cardName)) == Some(card)
    ensures card.isActive ==> First(cards + [card], Active(card.user)) == Some(card)
  {
    AppendUnique(cards, card);
    FirstSnoc(cards, Named(card.user, card.cardName), card);
    if card.isActive {
      NoneOwnedNoneActive(cards, card.user);
      FirstSnoc(cards, Active(card.user), card);
    }
  }

  /** A user with no cards has no active card. */
  lemma NoneOwnedNoneActive(cards: seq<Card>, u: User)
    requires Where(cards, Owned(u)) == []
    ensures First(cards, Active(u)).None?
  {
    forall c | c in cards ensures !Active(u)(c) {
      assert c !in Where(cards, Owned(u));
    }
  }

  /** A row the update selects is present afterwards in updated form. */
  lemma SetWhereHas<T(!new)>(rows: seq<T>, p: T -> bool, f: T -> T, t: T)
    requires t in rows && p(t)
    ensures f(t) in SetWhere(rows, p, f)
  {
    var i :| 0 <= i < |rows| && rows[i] == t;
    assert SetWhere(rows, p, f)[i] == f(t);
  }

  function CardExists(name: string): string { "人物卡 \"" + name + "\" 已存在" }

  function CardMissing(name: string): string { "人物卡 \"" + name + "\" 不存在" }

  const NoCard: string := "未找到人物卡"

  class Store {
    var cards: seq<Card>
    var bindings: seq<Binding>
    var stats: seq<User>
    var groupData: seq<GroupData>

    predicate Valid()
      reads this
    {
      UniqueNames(cards)
    }

    constructor ()
      ensures Valid() && cards == [] && bindings == [] && stats == [] && groupData == []
    {
      cards := [];
      bindings := [];
      stats := [];
      groupData := [];
    }

    /** `getCard` */
    function GetCard(u: User, name: string): (r: Option<Card>)
      reads this
      ensures r.None? <==> forall c :: c in cards ==> !(c.user == u && c.cardName == name)
      ensures r.Some? ==> r.value in cards && r.value.user == u && r.value.cardName == name
    {
      First(cards, Named(u, name))
    }

    /** `getActiveCard` */
    function GetActiveCard(u: User): (r: Option<Card>)
      reads this
      ensures r.None? <==> forall c :: c in cards ==> !(c.user == u && c.isActive)
      ensures r.Some? ==> r.value in cards && r.value.user == u && r.value.isActive
    {
      First(cards, Active(u))
    }

    /** `getAllCards` */
    function AllCards(u: User): (r: seq<Card>)
      reads this
      ensures forall c :: c in r <==> c in cards && c.user == u
    {
      Where(cards, Owned(u))
    }

    /** The card a command names, or the active one when no name is given. */
    function Target(u: User, name: string): (r: Option<Card>)
      reads this
      ensures name != [] ==> r == GetCard(u, name)
      ensures name == [] ==> r == GetActiveCard(u)
    {
      if name != [] then GetCard(u, name) else GetActiveCard(u)
    }

    /** `getAttributes` */
    function GetAttributes(u: User, name: string): (r: Option<Attrs>)
      reads this
      ensures r.None? <==> Target(u, name).None?
      ensures r.Some? ==> r.value == Target(u, name).value.attributes
    {
      match Target(u, name)
      case None => None
      case Some(c) => Some(c.attributes)
    }

    /** `createCard`: refused when the name is taken; the user's first card
        is active, any later one is not. */
    method CreateCard(u: User, name: string, cardType: string, attributes: Attrs) returns (r: Result<Card, string>)
      requires Valid()
      modifies this
      ensures Valid()
      ensures bindings == old(bindings) && stats == old(stats) && groupData == old(groupData)
      ensures old(GetCard(u, name)).Some? ==> r == Err(CardExists(name)) && cards == old(cards)
      ensures old(GetCard(u, name)).None? ==>
        r == Ok(Card(u, name, cardType, old(AllCards(u)) == [], attributes)) && cards == old(cards) + [r.value]
      ensures r.Ok? ==> GetCard(u, name) == Some(r.value)
      ensures r.Ok? && old(AllCards(u)) == [] ==> GetActiveCard(u) == Some(r.value)
    {
      var existing := GetCard(u, name);
      if existing.Some? {
        return Err(CardExists(name));
      }
      var isActive := AllCards(u) == [];
      var card := Card(u, name, cardType, isActive, attributes);
      AppendCard(cards, card);
      cards := cards + [card];
      r := Ok(card);
    }

    /** `setAttributes`: the target's attributes with the given ones spread
        over them, written to the target's rows. */
    method SetAttributes(u: User, name: string, attributes: Attrs) returns (r: Result<(), string>)
      requires Valid()
      modifies this
      ensures Valid()
      ensures bindings == old(bindings) && stats == old(stats) && groupData == old(groupData)
      ensures old(Target(u, name)).None? ==> r == Err(NoCard) && cards == old(cards)
      ensures old(Target(u, name)).Some? ==>
        var t := old(Target(u, name)).value;
        r.Ok? && cards == SetWhere(old(cards), Named(u, t.cardName), (c: Card) => c.(attributes := Spread(t.attributes, attributes)))
      ensures old(Target(u, name)).Some? ==>
        var t := old(Target(u, name)).value;
        GetCard(u, t.cardName) == Some(t.(attributes := Spread(t.attributes, attributes)))
    {
      var target := Target(u, name);
      if target.None? {
        return Err(NoCard);
      }
      var t := target.value;
      var newAttrs := Spread(t.attributes, attributes);
      var f := (c: Card) => c.(attributes := newAttrs);
      var before := cards;
      cards := SetWhere(cards, Named(u, t.cardName), f);
      SetWhereUnique(before, Named(u, t.cardName), f);
      SetWhereHas(before, Named(u, t.cardName), f, t);
      FoundUnique(cards, f(t));
      r := Ok(());
    }

    /** `switchCard`: every card of the user is deactivated, then the
        target's rows are activated. */
    method SwitchCard(u: User, name: string) returns (r: Result<(), string>)
      requires Valid()
      modifies this
      ensures Valid()
      ensures bindings == old(bindings) && stats == old(stats) && groupData == old(groupData)
      ensures old(GetCard(u, name)).None? <==> r.Err?
      ensures r.Err? ==> r.error == CardMissing(name) && cards == old(cards)
      ensures r.Ok? ==> |cards| == |old(cards)|
      ensures r.Ok? ==> forall i :: 0 <= i < |cards| ==>
        cards[i] == if old(cards)[i].user == u then old(cards)[i].(isActive := old(cards)[i].cardName == name) else old(cards)[i]
      ensures r.Ok? ==> forall c :: c in cards && c.user == u ==> (c.isActive <==> c.cardName == name)
    {
      var target := GetCard(u, name);
      if target.None? {
        return Err(CardMissing(name));
      }
      var before := cards;
      var off := (c: Card) => c.(isActive := false);
      var on := (c: Card) => c.(isActive := true);
      var middle := SetWhere(cards, Owned(u), off);
      SetWhereUnique(before, Owned(u), off);
      cards := SetWhere(middle, Named(u, name), on);
      SetWhereUnique(middle, Named(u, name), on);
      r := Ok(());
    }

    /** After a switch, the active card found is the target. */
    lemma SwitchedActive(u: User, name: string)
      requires Valid()
      requires forall c :: c in cards && c.user == u ==> (c.isActive <==> c.cardName == name)
      requires GetCard(u, name).Some?
      ensures GetActiveCard(u) == GetCard(u, name)
    {
      var a := GetActiveCard(u);
      assert a.Some? by {
        assert Active(u)(GetCard(u, name).value);
      }
      FoundUnique(cards, a.value);
    }

    /** `deleteCard`: false when absent; otherwise the card's bindings and
        rows are removed. */
    method DeleteCard(u: User, name: string) returns (deleted: bool)
      requires Valid()
      modifies this
      ensures Valid()
      ensures stats == old(stats) && groupData == old(groupData)
      ensures deleted <==> old(GetCard(u, name)).Some?
      ensures !deleted ==> cards == old(cards) && bindings == old(bindings)
      ensures deleted ==>
        cards == Where(old(cards), (c: Card) => !(c.user == u && c.cardName == name))
        && bindings == Where(old(bindings), (b: Binding) => !(b.user == u && b.cardName == name))
      ensures GetCard(u, name).None?
    {
      var card := GetCard(u, name);
      if card.None? {
        return false;
      }
      bindings := Where(bindings, (b: Binding) => !(b.user == u && b.cardName == name));
      cards := Where(cards, (c: Card) => !(c.user == u && c.cardName == name));
      deleted := true;
    }

    /** `renameCard`: the old name must exist and the new one must not; the
        card's rows and its bindings take the new name. */
    method RenameCard(u: User, oldName: string, newName: string) returns (r: Result<(), string>)
      requires Valid()
      modifies this
      ensures Valid()
      ensures stats == old(stats) && groupData == old(groupData)
      ensures old(GetCard(u, oldName)).None? ==> r == Err(CardMissing(oldName))
      ensures old(GetCard(u, oldName)).Some? && old(GetCard(u, newName)).Some? ==> r == Err(CardExists(newName))
      ensures r.Err? ==> cards == old(cards) && bindings == old(bindings)
      ensures r.Ok? <==> old(GetCard(u, oldName)).Some? && old(GetCard(u, newName)).None?
      ensures r.Ok? ==>
        cards == SetWhere(old(cards), Named(u, oldName), (c: Card) => c.(cardName := newName))
        && bindings == SetWhere(old(bindings), (b: Binding) => b.user == u && b.cardName == oldName,
                                (b: Binding) => b.(cardName := newName))
      ensures r.Ok? ==> GetCard(u, newName) == Some(old(GetCard(u, oldName)).value.(cardName := newName))
      ensures r.Ok? ==> GetCard(u, oldName).None?
    {
      var oldCard := GetCard(u, oldName);
      if oldCard.None? {
        return Err(CardMissing(oldName));
      }
      var newCard := GetCard(u, newName);
      if newCard.Some? {
        return Err(CardExists(newName));
      }
      var before := cards;
      var f := (c: Card) => c.(cardName := newName);
      cards := SetWhere(cards, Named(u, oldName), f);
      bindings := SetWhere(bindings, (b: Binding) => b.user == u && b.cardName == oldName,
                           (b: Binding) => b.(cardName := newName));
      RenameUnique(before, u, oldName, newName);
      SetWhereHas(before, Named(u, oldName), f, oldCard.value);
      FoundUnique(cards, f(oldCard.value));
      r := Ok(());
    }

    /** `copyCard`: the source must exist and the target must not; the copy
        is inactive, with the source's type and attributes. */
    method CopyCard(u: User, sourceName: string, targetName: string) returns (r: Result<Card, string>)
      requires Valid()
      modifies this
      ensures Valid()
      ensures bindings == old(bindings) && stats == old(stats) && groupData == old(groupData)
      ensures old(GetCard(u, sourceName)).None? ==> r == Err(CardMissing(sourceName))
      ensures old(GetCard(u, sourceName)).Some? && old(GetCard(u, targetName)).Some? ==> r == Err(CardExists(targetName))
      ensures r.Err? ==> cards == old(cards)
      ensures r.Ok? ==>
        var s := old(GetCard(u, sourceName)).value;
        r.value == Card(u, targetName, s.cardType, false, s.attributes) && cards == old(cards) + [r.value]
      ensures r.Ok? ==> GetCard(u, targetName) == Some(r.value) && GetCard(u, sourceName) == old(GetCard(u, sourceName))
    {
      var sourceCard := GetCard(u, sourceName);
      if sourceCard.None? {
        return Err(CardMissing(sourceName));
      }
      var targetCard := GetCard(u, targetName);
      if targetCard.Some? {
        return Err(CardExists(targetName));
      }
      var s := sourceCard.value;
      var card := Card(u, targetName, s.cardType, false, s.attributes);
      FirstSnoc(cards, Named(u, targetName), card);
      FirstSnoc(cards, Named(u, sourceName), card);
      cards := cards + [card];
      r := Ok(card);
    }

    /** `clearAllCards`: the number of the user's cards beforehand; their
        cards, bindings and statistics are removed. */
    method ClearAllCards(u: User) returns (count: nat)
      requires Valid()
      modifies this
      ensures Valid()
      ensures groupData == old(groupData)
      ensures count == |old(AllCards(u))|
      ensures cards == Where(old(cards), (c: Card) => c.user != u)
      ensures bindings == Where(old(bindings), (b: Binding) => b.user != u)
      ensures stats == Where(old(stats), (s: User) => s != u)
      ensures AllCards(u) == []
    {
      var all := AllCards(u);
      cards := Where(cards, (c: Card) => c.user != u);
      bindings := Where(bindings, (b: Binding) => b.user != u);
      stats := Where(stats, (s: User) => s != u);
      count := |all|;
      WhereEmpty(cards, Owned(u));
    }
  }
}
