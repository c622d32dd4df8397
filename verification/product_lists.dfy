/** Product lists of a user (userController.js): the slug a public list
    gets, the duplicate-name check of `createList`, the slug change of
    `updateList` and the duplicate-free insertion of `addItemToList`. */
module ProductLists {
  import opened Common

  // ---------------------------------------------------------------------
  // Text helpers

  /** `toLowerCase`, restricted to ASCII letters. */
  function LowerChar(c: char): (d: char)
    ensures 'A' <= c <= 'Z' ==> d as int == c as int + 32
    ensures !('A' <= c <= 'Z') ==> d == c
  {
    if 'A' <= c <= 'Z' then (c as int + 32) as char else c
  }

  function Lower(s: string): (r: string)
    ensures |r| == |s|
    ensures forall i :: 0 <= i < |s| ==> r[i] == LowerChar(s[i])
  {
    seq(|s|, i requires 0 <= i < |s| => LowerChar(s[i]))
  }

  /** The characters the regular-expression class `\s` matches: tab, line
      feed, vertical tab, form feed, carriage return, space, no-break space,
      the Unicode space separators, line and paragraph separators and the
      byte order mark. */
  predicate IsSpace(c: char)
  {
    var n := c as int;
    || (9 <= n <= 13) || n == 32 || n == 0xA0 || n == 0x1680
    || (0x2000 <= n <= 0x200A) || n == 0x2028 || n == 0x2029
    || n == 0x202F || n == 0x205F || n == 0x3000 || n == 0xFEFF
  }

  /** `s` without its leading run of whitespace. */
  function DropSpaces(s: string): (r: string)
    ensures |r| <= |s|
    ensures |s| > 0 && IsSpace(s[0]) ==> |r| < |s|
    ensures |r| > 0 ==> !IsSpace(r[0])
    ensures r == s[|s| - |r|..]
    ensures forall j :: 0 <= j < |s| - |r| ==> IsSpace(s[j])
  {
    if |s| > 0 && IsSpace(s[0]) then DropSpaces(s[1..]) else s
  }

  /** `replace(/\s+/g, '-')`: every maximal run of whitespace becomes one hyphen. */
  function Hyphenate(s: string): (r: string)
    ensures |r| <= |s|
    ensures forall i :: 0 <= i < |r| ==> !IsSpace(r[i])
    decreases |s|
  {
    if |s| == 0 then ""
    else if IsSpace(s[0]) then "-" + Hyphenate(DropSpaces(s))
    else [s[0]] + Hyphenate(s[1..])
  }

  /** `replace(/ /g, '-')`: every single space becomes a hyphen. */
  function ReplaceSpaces(s: string): (r: string)
    ensures |r| == |s|
    ensures forall i :: 0 <= i < |s| ==> r[i] == if s[i] == ' ' then '-' else s[i]
  {
    seq(|s|, i requires 0 <= i < |s| => if s[i] == ' ' then '-' else s[i])
  }

  /** Text without whitespace is left as it is. */
  lemma {:induction false} HyphenateNoSpaces(s: string)
    requires forall i :: 0 <= i < |s| ==> !IsSpace(s[i])
    ensures Hyphenate(s) == s
  {
    if |s| > 0 {
      HyphenateNoSpaces(s[1..]);
      assert s == [s[0]] + s[1..];
    }
  }

  /** Collapsing whitespace twice is collapsing it once. */
  lemma HyphenateIdempotent(s: string)
    ensures Hyphenate(Hyphenate(s)) == Hyphenate(s)
  {
    HyphenateNoSpaces(Hyphenate(s));
  }

  lemma ReplaceSpacesCons(s: string)
    requires |s| > 0
    ensures ReplaceSpaces(s) == [if s[0] == ' ' then '-' else s[0]] + ReplaceSpaces(s[1..])
  {
  }

  /** The two slug rules agree on text whose only whitespace is single spaces. */
  lemma {:induction false} SlugRulesAgree(s: string)
    requires forall i :: 0 <= i < |s| && IsSpace(s[i]) ==> s[i] == ' '
    requires forall i :: 0 <= i < |s| - 1 ==> !(s[i] == ' ' && s[i + 1] == ' ')
    ensures Hyphenate(s) == ReplaceSpaces(s)
  {
    if |s| > 0 {
      var rest := s[1..];
      assert forall i :: 0 <= i < |rest| ==> rest[i] == s[i + 1];
      SlugRulesAgree(rest);
      ReplaceSpacesCons(s);
      if IsSpace(s[0]) {
        assert s[0] == ' ';
        assert DropSpaces(s) == rest by {
          if |rest| > 0 {
            assert rest[0] == s[1] && s[1] != ' ';
            assert !IsSpace(rest[0]);
          }
        }
      }
    }
  }

  /** A run of whitespace followed by the end of the text or by other text is
      dropped whole. */
  lemma {:induction false} DropSpacesRun(w: string, b: string)
    requires forall j :: 0 <= j < |w| ==> IsSpace(w[j])
    requires |b| == 0 || !IsSpace(b[0])
    ensures DropSpaces(w + b) == b
  {
    if |w| > 0 {
      assert (w + b)[1..] == w[1..] + b;
      DropSpacesRun(w[1..], b);
    } else {
      assert w + b == b;
    }
  }

  /** The `\s+` rule on a maximal whitespace run: the run becomes a single
      hyphen and the rest of the text is handled on its own. */
  lemma HyphenateRun(w: string, b: string)
    requires |w| > 0 && forall j :: 0 <= j < |w| ==> IsSpace(w[j])
    requires |b| == 0 || !IsSpace(b[0])
    ensures Hyphenate(w + b) == "-" + Hyphenate(b)
  {
    assert (w + b)[0] == w[0];
    DropSpacesRun(w, b);
  }

  /** The `\s+` rule keeps a character that is not whitespace. */
  lemma HyphenateKeeps(c: char, b: string)
    requires !IsSpace(c)
    ensures Hyphenate([c] + b) == [c] + Hyphenate(b)
  {
    assert ([c] + b)[1..] == b;
  }

  /** Text with two whitespace characters in a row loses length under the
      `\s+` rule. */
  lemma {:induction false} HyphenateShorter(s: string, i: nat)
    requires i + 1 < |s| && IsSpace(s[i]) && IsSpace(s[i + 1])
    ensures |Hyphenate(s)| < |s|
  {
    var rest := s[1..];
    if IsSpace(s[0]) {
      if IsSpace(s[1]) {
        assert DropSpaces(s) == DropSpaces(rest);
        assert |DropSpaces(rest)| < |rest|;
      } else {
        assert i >= 2;
        assert DropSpaces(s) == rest;
        assert rest[i - 1] == s[i] && rest[i] == s[i + 1];
        HyphenateShorter(rest, i - 1);
      }
    } else {
      assert rest[i - 1] == s[i] && rest[i] == s[i + 1];
      HyphenateShorter(rest, i - 1);
    }
  }

  /** Wherever a name has two spaces in a row the two slug rules differ: the
      `\s+` rule shortens the text, the single-space rule keeps its length. */
  lemma SlugRulesDiffer(s: string, i: nat)
    requires i + 1 < |s| && s[i] == ' ' && s[i + 1] == ' '
    ensures |Hyphenate(s)| < |s| == |ReplaceSpaces(s)|
    ensures Hyphenate(s) != ReplaceSpaces(s)
  {
    assert IsSpace(' ');
    HyphenateShorter(s, i);
  }

  // ---------------------------------------------------------------------
  // Decimal rendering of the timestamp

  function DigitChar(d: nat): char
    requires d < 10
  {
    ('0' as int + d) as char
  }

  predicate IsDigit(c: char)
  {
    '0' <= c <= '9'
  }

  /** `String(n)` for a non-negative integer: its decimal digits. */
  function NatToString(n: nat): (s: string)
    ensures |s| > 0
    ensures forall i :: 0 <= i < |s| ==> IsDigit(s[i])
  {
    if n < 10 then [DigitChar(n)] else NatToString(n / 10) + [DigitChar(n % 10)]
  }

  function DigitValue(c: char): nat
    requires IsDigit(c)
  {
    c as int - '0' as int
  }

  /** The value of a string of decimal digits. */
  function DigitsValue(s: string): nat
    requires forall i :: 0 <= i < |s| ==> IsDigit(s[i])
  {
    if |s| == 0 then 0
    else 10 * DigitsValue(s[..|s| - 1]) + DigitValue(s[|s| - 1])
  }

  /** The rendered timestamp reads back as the timestamp. */
  lemma {:induction false} NatToStringRoundTrip(n: nat)
    ensures DigitsValue(NatToString(n)) == n
  {
    if n >= 10 {
      NatToStringRoundTrip(n / 10);
      var s := NatToString(n);
      assert s[..|s| - 1] == NatToString(n / 10);
    }
  }

  // ---------------------------------------------------------------------
  // Slugs

  /** The slug `createList` gives a public list: the lower-cased name with
      each whitespace run turned into a hyphen, a hyphen, the timestamp. */
  function CreateSlug(name: string, now: nat): string
  {
    Hyphenate(Lower(name)) + "-" + NatToString(now)
  }

  /** The slug `updateList` gives a list made public: as `CreateSlug`, but
      replacing single spaces only. */
  function UpdateSlug(name: string, now: nat): string
  {
    ReplaceSpaces(Lower(name)) + "-" + NatToString(now)
  }

  /** A slug from `createList` holds no whitespace and ends in the timestamp,
      which can be read back from it. */
  lemma CreateSlugShape(name: string, now: nat)
    ensures forall i :: 0 <= i < |CreateSlug(name, now)| ==> !IsSpace(CreateSlug(name, now)[i])
    ensures var slug := CreateSlug(name, now);
      var digits := NatToString(now);
      |slug| > |digits| && slug[|slug| - |digits| - 1] == '-' && slug[|slug| - |digits|..] == digits
      && DigitsValue(slug[|slug| - |digits|..]) == now
  {
    var slug := CreateSlug(name, now);
    var digits := NatToString(now);
    NatToStringRoundTrip(now);
    forall i | 0 <= i < |digits|
      ensures !IsSpace(digits[i])
    {
      assert IsDigit(digits[i]);
    }
    assert slug[|slug| - |digits|..] == digits;
  }

  // ---------------------------------------------------------------------
  // Lists

  datatype ProductList = ProductList(listId: nat, userId: nat, name: string, isPublic: bool, slug: Option<string>)

  datatype ListError = NameTaken | ListNotFound

  /** No user has two lists of the same name. */
  ghost predicate UniqueNames(lists: seq<ProductList>)
  {
    forall i, j :: 0 <= i < j < |lists| ==>
      lists[i].userId != lists[j].userId || lists[i].name != lists[j].name
  }

  /** `createList`: refused when the user already has a list of that name;
      otherwise the new list is appended, with a slug when it is public.
      The id is the one the database assigns, so it is not yet in use. */
  function CreateList(lists: seq<ProductList>, userId: nat, name: string, isPublic: bool, now: nat, newId: nat)
    : (r: Result<seq<ProductList>, ListError>)
    requires forall i :: 0 <= i < |lists| ==> lists[i].listId != newId
    ensures r.Err? <==> exists i :: 0 <= i < |lists| && lists[i].userId == userId && lists[i].name == name
    ensures r.Err? ==> r.error == NameTaken
    ensures r.Ok? ==>
      r.value == lists + [ProductList(newId, userId, name, isPublic, if isPublic then Some(CreateSlug(name, now)) else None)]
  {
    var slug := if isPublic then Some(CreateSlug(name, now)) else None;
    if exists i :: 0 <= i < |lists| && lists[i].userId == userId && lists[i].name == name then
      Err(NameTaken)
    else
      Ok(lists + [ProductList(newId, userId, name, isPublic, slug)])
  }

  /** Creating a list keeps list names unique per user. */
  lemma CreateListKeepsNamesUnique(lists: seq<ProductList>, userId: nat, name: string, isPublic: bool, now: nat, newId: nat)
    requires forall i :: 0 <= i < |lists| ==> lists[i].listId != newId
    requires UniqueNames(lists)
    ensures CreateList(lists, userId, name, isPublic, now, newId).Ok? ==>
      UniqueNames(CreateList(lists, userId, name, isPublic, now, newId).value)
  {
  }

  /** The position of the user's list `listId`, or -1. */
  function FindList(lists: seq<ProductList>, userId: nat, listId: nat): (i: int)
    ensures -1 <= i < |lists|
    ensures 0 <= i ==> lists[i].userId == userId && lists[i].listId == listId
    ensures i < 0 <==> forall k :: 0 <= k < |lists| ==> lists[k].userId != userId || lists[k].listId != listId
  {
    if |lists| == 0 then -1
    else
      var i := FindList(lists[..|lists| - 1], userId, listId);
      if 0 <= i then i
      else if lists[|lists| - 1].userId == userId && lists[|lists| - 1].listId == listId then |lists| - 1
      else -1
  }

  /** `updateList`: the user's list gets the new visibility; made public it
      gets a fresh slug, made private it loses its slug. Nothing else changes. */
  function UpdateList(lists: seq<ProductList>, userId: nat, listId: nat, isPublic: bool, now: nat)
    : (r: Result<seq<ProductList>, ListError>)
    ensures r.Err? <==> FindList(lists, userId, listId) < 0
    ensures r.Err? ==> r.error == ListNotFound
    ensures r.Ok? ==>
      var i := FindList(lists, userId, listId);
      && |r.value| == |lists|
      && r.value[i].isPublic == isPublic
      && r.value[i].slug == (if isPublic then Some(UpdateSlug(lists[i].name, now)) else None)
      && r.value[i] == lists[i].(isPublic := r.value[i].isPublic, slug := r.value[i].slug)
      && forall k :: 0 <= k < |lists| && k != i ==> r.value[k] == lists[k]
  {
    var i := FindList(lists, userId, listId);
    if i < 0 then Err(ListNotFound)
    else
      var l := lists[i];
      var slug := if isPublic then Some(UpdateSlug(l.name, now)) else None;
      Ok(lists[i := l.(isPublic := isPublic, slug := slug)])
  }

  /** Updating a list never renames it, so list names stay unique per user. */
  lemma UpdateListKeepsNamesUnique(lists: seq<ProductList>, userId: nat, listId: nat, isPublic: bool, now: nat)
    requires UniqueNames(lists)
    ensures UpdateList(lists, userId, listId, isPublic, now).Ok? ==>
      UniqueNames(UpdateList(lists, userId, listId, isPublic, now).value)
  {
    var r := UpdateList(lists, userId, listId, isPublic, now);
    if r.Ok? {
      assert forall k :: 0 <= k < |lists| ==> r.value[k].userId == lists[k].userId && r.value[k].name == lists[k].name;
    }
  }

  // ---------------------------------------------------------------------
  // List items

  datatype ListItem = ListItem(listId: nat, productId: nat)

  /** `addItemToList`: the row is created only when the list does not hold
      the product yet. */
  function AddItemToList(items: seq<ListItem>, listId: nat, productId: nat): (r: seq<ListItem>)
    ensures ListItem(listId, productId) in r
    ensures forall x :: x in r <==> x in items || x == ListItem(listId, productId)
    ensures ListItem(listId, productId) in items ==> r == items
    ensures ListItem(listId, productId) !in items ==> r == items + [ListItem(listId, productId)]
  {
    if ListItem(listId, productId) in items then items else items + [ListItem(listId, productId)]
  }

  ghost predicate NoDuplicates(items: seq<ListItem>)
  {
    forall i, j :: 0 <= i < j < |items| ==> items[i] != items[j]
  }

  /** Adding the same product twice is adding it once, and a list never holds
      a product twice. */
  lemma AddItemToListIdempotent(items: seq<ListItem>, listId: nat, productId: nat)
    ensures AddItemToList(AddItemToList(items, listId, productId), listId, productId)
      == AddItemToList(items, listId, productId)
    ensures NoDuplicates(items) ==> NoDuplicates(AddItemToList(items, listId, productId))
  {
  }
}
