/**
 * The read side of the files collection: `page` normalisation by
 * `parseInt(page, 10) || 0`, the `parentId` root sentinel, the owner and
 * parent filter, the `$skip`/`$limit` window and the owner-scoped point
 * lookup. The collection is read in insertion order.
 */
module Listing {
  import opened Wrappers
  import opened Records

  const PageSize: nat := 20

  function Min(a: int, b: int): int {
    if a <= b then a else b
  }

  // ---------------------------------------------------------------------
  // parseInt(text, 10)

  /** The characters ECMAScript's parseInt skips before the number: white
      space (including every space separator) and line terminators. */
  predicate IsJsSpace(c: char) {
    || c == ' ' || c == '\t' || c == '\n' || c == '\r'
    || c == '\U{B}' || c == '\U{C}' || c == '\U{A0}' || c == '\U{1680}'
    || ('\U{2000}' <= c <= '\U{200A}')
    || c == '\U{2028}' || c == '\U{2029}' || c == '\U{202F}' || c == '\U{205F}'
    || c == '\U{3000}' || c == '\U{FEFF}'
  }

  predicate IsDigit(c: char) {
    '0' <= c <= '9'
  }

  predicate AllDigits(s: string) {
    forall k :: 0 <= k < |s| ==> IsDigit(s[k])
  }

  /** `s` without its leading white space. */
  function TrimStart(s: string): (r: string)
    ensures |r| <= |s| && r == s[|s| - |r|..]
    ensures forall k :: 0 <= k < |s| - |r| ==> IsJsSpace(s[k])
    ensures r == [] || !IsJsSpace(r[0])
  {
    if |s| > 0 && IsJsSpace(s[0]) then TrimStart(s[1..]) else s
  }

  /** The longest prefix of decimal digits. */
  function DigitRun(s: string): (r: string)
    ensures |r| <= |s| && r == s[..|r|] && AllDigits(r)
    ensures |r| == |s| || !IsDigit(s[|r|])
  {
    if |s| > 0 && IsDigit(s[0]) then [s[0]] + DigitRun(s[1..]) else []
  }

  /** The value of a string of decimal digits, most significant first. */
  function DigitsValue(ds: string): nat
    requires AllDigits(ds)
  {
    if ds == [] then 0
    else 10 * DigitsValue(ds[..|ds| - 1]) + (ds[|ds| - 1] as int - '0' as int)
  }

  /** The text after an optional leading sign. */
  function Unsigned(t: string): string {
    if |t| > 0 && (t[0] == '-' || t[0] == '+') then t[1..] else t
  }

  /** The number read from text that starts at its sign or first digit;
      `None` is NaN (no digit there). */
  function ParseSigned(t: string): Option<int> {
    var ds := DigitRun(Unsigned(t));
    var value: int := DigitsValue(ds);
    if ds == [] then None else Some(if |t| > 0 && t[0] == '-' then -value else value)
  }

  /** parseInt(s, 10): skip white space, then read an optional sign and the
      longest run of digits. */
  function ParseInt(s: string): (r: Option<int>)
    ensures r.None? <==> DigitRun(Unsigned(TrimStart(s))) == []
    ensures r.Some? && r.value < 0 ==> TrimStart(s)[0] == '-'
  {
    ParseSigned(TrimStart(s))
  }

  /** `page = parseInt(page, 10) || 0`, the query value being absent when
      the client sent none (the default 0 reads as "0"). NaN and zero
      become 0; any other number, negative ones included, is kept. */
  function NormalisePage(page: Option<string>): (n: int)
    ensures page.None? ==> n == 0
    ensures page.Some? && ParseInt(page.value).None? ==> n == 0
    ensures page.Some? && ParseInt(page.value).Some? ==> n == ParseInt(page.value).value
  {
    match page
    case None => 0
    case Some(text) => ParseInt(text).GetOr(0)
  }

  /** The decimal text of a number, as a client would put it in a query. */
  function DecimalText(n: nat): (s: string)
    ensures |s| > 0 && AllDigits(s)
  {
    if n < 10 then [('0' as int + n) as char]
    else DecimalText(n / 10) + [('0' as int + n % 10) as char]
  }

  lemma {:induction false} DecimalTextValue(n: nat)
    ensures DigitsValue(DecimalText(n)) == n
  {
    var s := DecimalText(n);
    if n >= 10 {
      DecimalTextValue(n / 10);
      assert s[..|s| - 1] == DecimalText(n / 10);
    }
  }

  lemma {:induction false} DigitRunOfDigits(ds: string, rest: string)
    requires AllDigits(ds)
    requires rest == [] || !IsDigit(rest[0])
    ensures DigitRun(ds + rest) == ds
  {
    if ds != [] {
      assert (ds + rest)[1..] == ds[1..] + rest;
      DigitRunOfDigits(ds[1..], rest);
    }
  }

  /** The value a sign and a digit run denote. */
  function SignedValue(sign: string, ds: string): int
    requires AllDigits(ds)
  {
    var value: int := DigitsValue(ds);
    if sign == "-" then -value else value
  }

  /** Any page text of the shape parseInt reads: white space, an optional
      sign, a non-empty digit run (leading zeros allowed) and a suffix that
      does not start with a digit, normalises to the number the sign and
      digits denote ("+7" and "007" read as 7, "-3" as -3). */
  lemma PageTextReadsBack(pad: string, sign: string, ds: string, rest: string)
    requires forall k :: 0 <= k < |pad| ==> IsJsSpace(pad[k])
    requires sign == "" || sign == "+" || sign == "-"
    requires |ds| > 0 && AllDigits(ds)
    requires rest == [] || !IsDigit(rest[0])
    ensures ParseInt(pad + sign + ds + rest) == Some(SignedValue(sign, ds))
    ensures NormalisePage(Some(pad + sign + ds + rest)) == SignedValue(sign, ds)
  {
    var t := sign + ds + rest;
    assert pad + sign + ds + rest == pad + t;
    assert t[0] == if sign == "" then ds[0] else sign[0];
    ParseIntPadded(pad, t);
    ParseSignedText(sign, ds, rest);
  }

  /** A bare digit run reads as its value. */
  lemma BareDigitsReadBack(ds: string)
    requires |ds| > 0 && AllDigits(ds)
    ensures NormalisePage(Some(ds)) == DigitsValue(ds)
  {
    assert "" + ds + "" == ds;
    TrimUnpadded(ds);
    ParseSignedText("", ds, "");
  }

  lemma ParseSignedText(sign: string, ds: string, rest: string)
    requires sign == "" || sign == "+" || sign == "-"
    requires |ds| > 0 && AllDigits(ds)
    requires rest == [] || !IsDigit(rest[0])
    ensures ParseSigned(sign + ds + rest) == Some(SignedValue(sign, ds))
  {
    var t := sign + ds + rest;
    if sign == "" {
      assert t == ds + rest && t[0] == ds[0];
    } else {
      assert t[0] == sign[0] && t[1..] == ds + rest;
    }
    assert Unsigned(t) == ds + rest;
    DigitRunOfDigits(ds, rest);
  }

  /** A page number written in decimal, optionally padded with leading
      white space and followed by non-digits, reads back as itself. */
  lemma PageTextRoundTrip(n: nat, pad: string, rest: string)
    requires forall k :: 0 <= k < |pad| ==> IsJsSpace(pad[k])
    requires rest == [] || !IsDigit(rest[0])
    ensures NormalisePage(Some(pad + DecimalText(n) + rest)) == n
  {
    var ds := DecimalText(n);
    PageTextReadsBack(pad, "", ds, rest);
    assert pad + "" == pad;
    DecimalTextValue(n);
  }

  /** With a minus sign in front the page reads back negated: parseInt
      keeps negative numbers. */
  lemma NegativePageText(n: nat, pad: string, rest: string)
    requires forall k :: 0 <= k < |pad| ==> IsJsSpace(pad[k])
    requires rest == [] || !IsDigit(rest[0])
    ensures NormalisePage(Some(pad + "-" + DecimalText(n) + rest)) == -(n as int)
  {
    PageTextReadsBack(pad, "-", DecimalText(n), rest);
    DecimalTextValue(n);
  }

  lemma ParseIntPadded(pad: string, t: string)
    requires forall k :: 0 <= k < |pad| ==> IsJsSpace(pad[k])
    requires t == [] || !IsJsSpace(t[0])
    ensures ParseInt(pad + t) == ParseInt(t)
  {
    TrimPad(pad, t);
    TrimUnpadded(t);
  }

  lemma TrimUnpadded(t: string)
    requires t == [] || !IsJsSpace(t[0])
    ensures TrimStart(t) == t
  {
  }

  lemma {:induction false} TrimPad(pad: string, s: string)
    requires forall k :: 0 <= k < |pad| ==> IsJsSpace(pad[k])
    requires s == [] || !IsJsSpace(s[0])
    ensures TrimStart(pad + s) == s
  {
    if pad != [] {
      assert (pad + s)[1..] == pad[1..] + s;
      TrimPad(pad[1..], s);
    }
  }

  // ---------------------------------------------------------------------
  // The parentId filter of the listing

  /** `parentId` of the listing query: absent, the number 0 or the text "0"
      select the top level; any other text goes through the id parser,
      `None` meaning the parser threw. */
  function IndexParent(parentId: Option<string>, parse: IdParser): (r: Option<Parent>)
    ensures parentId.None? || parentId == Some("0") ==> r == Some(Root)
    ensures parentId.Some? && parentId.value != "0" ==>
      (r.Some? <==> ValidId(parse, parentId.value))
      && (r.Some? ==> r.value == Under(parse(parentId.value).value))
  {
    match parentId
    case None => Some(Root)
    case Some(text) =>
      if text == "0" then Some(Root)
      else if parse(text).Some? then Some(Under(parse(text).value))
      else None
  }

  /** `$match: { userId, parentId }`, in collection order. */
  function Matching(files: seq<FileDoc>, user: ObjectId, parent: Parent): (r: seq<FileDoc>)
    ensures |r| <= |files|
    ensures forall d :: d in r <==> d in files && d.userId == user && d.parentId == parent
  {
    if files == [] then []
    else
      var rest := Matching(files[1..], user, parent);
      if files[0].userId == user && files[0].parentId == parent then [files[0]] + rest else rest
  }

  /** Filtering distributes over concatenation, so the filter keeps the
      collection's order. */
  lemma {:induction false} MatchingAppend(a: seq<FileDoc>, b: seq<FileDoc>, user: ObjectId, parent: Parent)
    ensures Matching(a + b, user, parent) == Matching(a, user, parent) + Matching(b, user, parent)
  {
    if a == [] {
      assert a + b == b;
    } else {
      assert (a + b)[1..] == a[1..] + b;
      MatchingAppend(a[1..], b, user, parent);
    }
  }

  /** A document appended to the collection comes last among the records
      it matches, and matches nothing else. */
  lemma AppendedComesLast(files: seq<FileDoc>, d: FileDoc, user: ObjectId, parent: Parent)
    ensures Matching(files + [d], user, parent) ==
      if d.userId == user && d.parentId == parent then Matching(files, user, parent) + [d]
      else Matching(files, user, parent)
  {
    MatchingAppend(files, [d], user, parent);
    assert [d][1..] == [];
  }

  /** `$skip: skip` followed by `$limit: limit`. */
  function Window<T>(s: seq<T>, skip: nat, limit: nat): (r: seq<T>)
    ensures |r| == if skip >= |s| then 0 else Min(limit, |s| - skip)
    ensures forall k :: 0 <= k < |r| ==> r[k] == s[skip + k]
  {
    if skip >= |s| then [] else s[skip..skip + Min(limit, |s| - skip)]
  }

  /** The records of one listing page. */
  function PageOf<T>(s: seq<T>, page: nat): (r: seq<T>)
    ensures |r| <= PageSize
    ensures page * PageSize >= |s| ==> r == []
  {
    Window(s, page * PageSize, PageSize)
  }

  /** Every record of a listing page belongs to the requester and sits
      under the requested parent. */
  lemma PageIsOwned(files: seq<FileDoc>, user: ObjectId, parent: Parent, page: nat)
    ensures forall d :: d in PageOf(Matching(files, user, parent), page) ==>
      d.userId == user && d.parentId == parent
  {
    var m := Matching(files, user, parent);
    forall d | d in PageOf(m, page)
      ensures d in m
    {
      var k :| 0 <= k < |PageOf(m, page)| && PageOf(m, page)[k] == d;
      assert d == m[page * PageSize + k];
    }
  }

  /** Pages 0 to n - 1 one after the other. */
  function Pages<T>(s: seq<T>, n: nat): seq<T> {
    if n == 0 then [] else Pages(s, n - 1) + PageOf(s, n - 1)
  }

  /** Reading pages 0, 1, ... in turn yields every matching record exactly
      once and in order: the first n pages are the first n * 20 records. */
  lemma {:induction false} PagesArePrefix<T>(s: seq<T>, n: nat)
    ensures Pages(s, n) == s[..Min(n * PageSize, |s|)]
  {
    if n > 0 {
      PagesArePrefix(s, n - 1);
      var lo := Min((n - 1) * PageSize, |s|);
      var hi := Min(n * PageSize, |s|);
      assert PageOf(s, n - 1) == s[lo..hi];
      assert s[..lo] + s[lo..hi] == s[..hi];
    }
  }

  /** Record k of the filtered sequence is item k % 20 of page k / 20. */
  lemma RecordOnItsPage<T>(s: seq<T>, k: nat)
    requires k < |s|
    ensures k % PageSize < |PageOf(s, k / PageSize)|
    ensures PageOf(s, k / PageSize)[k % PageSize] == s[k]
  {
    assert (k / PageSize) * PageSize + k % PageSize == k;
  }

  // ---------------------------------------------------------------------
  // findOne({ _id, userId })

  /** The first document with this id owned by this user. */
  function Lookup(files: seq<FileDoc>, id: ObjectId, user: ObjectId): (r: Option<FileDoc>)
    ensures r.Some? ==> r.value in files && r.value.id == id && r.value.userId == user
    ensures r.None? ==> forall d :: d in files ==> !(d.id == id && d.userId == user)
  {
    if files == [] then None
    else if files[0].id == id && files[0].userId == user then Some(files[0])
    else Lookup(files[1..], id, user)
  }

  /** A lookup that misses the existing documents finds an appended one. */
  lemma LookupAppended(files: seq<FileDoc>, d: FileDoc, user: ObjectId)
    requires forall e :: e in files ==> e.id != d.id
    requires d.userId == user
    ensures Lookup(files + [d], d.id, user) == Some(d)
  {
  }
}
