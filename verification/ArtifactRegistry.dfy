/**
 The bounded registry of interactive artifacts: a queue of at most 64 entries
 that refines an unbounded one, and the ids and URLs by which entries are served.
 */
module ArtifactRegistry {
  import opened Common

  type Html = seq<bv8>

  datatype Entry = Entry(id: string, html: Html)

  const MAX_REGISTRY_ENTRIES: nat := 64
  const MAX_ARTIFACT_BYTES: nat := 2 * 1024 * 1024

  // ---- Ids and URLs ----------------------------------------------------------

  predicate IsIdChar(c: char) {
    'A' <= c <= 'Z' || 'a' <= c <= 'z' || '0' <= c <= '9' || c == '_' || c == '-'
  }

  predicate IsValidId(id: string) {
    1 <= |id| <= 64 && forall i :: 0 <= i < |id| ==> IsIdChar(id[i])
  }

  /** One to 64 letters, digits, dashes and underscores of ASCII, and nothing else, make an id. */
  lemma ValidIdMeans(id: string)
    ensures IsValidId(id) <==>
            id != "" && |id| <= 64 &&
            forall c :: c in id ==> ('A' <= c <= 'Z' || 'a' <= c <= 'z' || '0' <= c <= '9' || c in {'_', '-'})
  {
    assert forall i :: 0 <= i < |id| ==> id[i] in id;
  }

  function HexDigit(d: nat): (c: char)
    requires d < 16
    ensures '0' <= c <= '9' || 'a' <= c <= 'f'
  {
    if d < 10 then ('0' as int + d) as char else ('a' as int + d - 10) as char
  }

  function Hex(bytes: seq<bv8>): (s: string)
    ensures |s| == 2 * |bytes|
    ensures forall i :: 0 <= i < |s| ==> IsIdChar(s[i])
  {
    if bytes == [] then ""
    else [HexDigit(bytes[0] as nat / 16), HexDigit(bytes[0] as nat % 16)] + Hex(bytes[1..])
  }

  lemma HexDigitMeans(d: nat)
    requires d < 16
    ensures HexDigit(d) == "0123456789abcdef"[d]
  {
  }

  /** Two digits a byte, the high one first. */
  lemma {:induction false} HexAt(bytes: seq<bv8>, i: nat)
    requires i < |bytes|
    ensures
      var b := bytes[i] as nat;
      Hex(bytes)[2 * i] == HexDigit(b / 16) && Hex(bytes)[2 * i + 1] == HexDigit(b % 16)
  {
    hide HexDigit;
    if i > 0 {
      HexAt(bytes[1..], i - 1);
      assert Hex(bytes)[2 * i] == Hex(bytes[1..])[2 * (i - 1)];
      assert Hex(bytes)[2 * i + 1] == Hex(bytes[1..])[2 * (i - 1) + 1];
    }
  }

  /** `fresh_artifact_id` on the 16 random bytes it drew. */
  function FreshId(bytes: seq<bv8>): (id: string)
    requires |bytes| == 16
    ensures IsValidId(id)
  {
    "a" + Hex(bytes)
  }

  /** An id is an `a` and all 32 digits of the bytes drawn, so different draws give different ids. */
  lemma FreshIdInjective(a: seq<bv8>, b: seq<bv8>)
    requires |a| == |b| == 16
    ensures |FreshId(a)| == 33 && FreshId(a)[0] == 'a'
    ensures FreshId(a) == FreshId(b) <==> a == b
  {
    if FreshId(a) == FreshId(b) {
      assert FreshId(a)[1..] == Hex(a) && FreshId(b)[1..] == Hex(b);
      forall i | 0 <= i < 16
        ensures a[i] == b[i]
      {
        HexAt(a, i);
        HexAt(b, i);
        DigitsTellByte(a[i] as nat, b[i] as nat);
      }
    }
  }

  lemma DigitsTellByte(x: nat, y: nat)
    requires x < 256 && y < 256 && HexDigit(x / 16) == HexDigit(y / 16) && HexDigit(x % 16) == HexDigit(y % 16)
    ensures x == y
  {
    DigitsDiffer(x / 16, y / 16);
    DigitsDiffer(x % 16, y % 16);
  }

  lemma DigitsDiffer(d: nat, e: nat)
    requires d < 16 && e < 16 && HexDigit(d) == HexDigit(e)
    ensures d == e
  {
  }

  /** `artifact://localhost`, or `http://artifact.localhost` on Windows. */
  datatype Platform = Platform(origin: string)

  function ArtifactUrl(platform: Platform, id: string): string {
    platform.origin + ("/" + id)
  }

  datatype Uri = Uri(path: string, query: Option<string>)

  /** Where the path ends: at a query or a fragment. */
  function PathEnd(s: string): (k: nat)
    ensures k <= |s|
    ensures forall i :: 0 <= i < k ==> s[i] != '?' && s[i] != '#'
    ensures k < |s| ==> s[k] == '?' || s[k] == '#'
  {
    if s == "" || s[0] == '?' || s[0] == '#' then 0 else 1 + PathEnd(s[1..])
  }

  /** The request the webview makes for a URL of this origin; fragments are not sent. */
  function RequestFor(platform: Platform, url: string): Option<Uri> {
    if !(platform.origin <= url) then None
    else
      var rest := url[|platform.origin|..];
      var k := PathEnd(rest);
      var query := if k < |rest| && rest[k] == '?' then Some(rest[k + 1..]) else None;
      Some(Uri(rest[..k], query))
  }

  /** `artifact_id_from_request`. */
  function IdFromRequest(uri: Uri): (id: Option<string>)
    ensures id.Some? <==> uri.query.None? && uri.path != "" && uri.path[0] == '/' && IsValidId(uri.path[1..])
    ensures id.Some? ==> "/" + id.value == uri.path
  {
    if uri.query.Some? || uri.path == "" || uri.path[0] != '/' then None
    else
      var segment := uri.path[1..];
      if '/' in segment || !IsValidId(segment) then None else Some(segment)
  }

  /**
   The URL of a text asks for the part before any query or fragment, and only
   if there is no query and that part is a valid id; so a valid id, and no text
   that is not one, gets its own URL served.
   */
  lemma UrlRoundTrip(platform: Platform, id: string)
    ensures RequestFor(platform, ArtifactUrl(platform, id)).Some?
    ensures
      var k := PathEnd(id);
      IdFromRequest(RequestFor(platform, ArtifactUrl(platform, id)).value) ==
        if (k < |id| ==> id[k] == '#') && IsValidId(id[..k]) then Some(id[..k]) else None
    ensures IdFromRequest(RequestFor(platform, ArtifactUrl(platform, id)).value) == Some(id) <==> IsValidId(id)
  {
    RequestOfUrl(platform, id);
    hide RequestFor, ArtifactUrl;
    var k := PathEnd(id);
    assert ("/" + id[..k])[1..] == id[..k];
    if IsValidId(id) {
      assert k < |id| ==> IsIdChar(id[k]);
      assert id[..k] == id;
    }
  }

  lemma RequestOfUrl(platform: Platform, id: string)
    ensures
      var k := PathEnd(id);
      RequestFor(platform, ArtifactUrl(platform, id)) ==
        Some(Uri("/" + id[..k], if k < |id| && id[k] == '?' then Some(id[k + 1..]) else None))
  {
    var rest := "/" + id;
    RequestOfRest(platform, rest);
    hide RequestFor;
    var k := PathEnd(id);
    assert PathEnd(rest) == 1 + k by { assert rest[1..] == id; }
    SplitAfterSlash(id, k);
  }

  lemma RequestOfRest(platform: Platform, rest: string)
    ensures
      var k := PathEnd(rest);
      RequestFor(platform, platform.origin + rest) ==
        Some(Uri(rest[..k], if k < |rest| && rest[k] == '?' then Some(rest[k + 1..]) else None))
  {
    assert (platform.origin + rest)[|platform.origin|..] == rest;
  }

  lemma SplitAfterSlash(id: string, k: nat)
    requires k <= |id|
    ensures ("/" + id)[..k + 1] == "/" + id[..k]
    ensures k < |id| ==> ("/" + id)[k + 1] == id[k] && ("/" + id)[k + 2..] == id[k + 1..]
  {
  }

  // ---- The queue ---------------------------------------------------------------

  datatype Event = Registered(id: string, html: Html) | Unregistered(id: string)

  function Position(entries: seq<Entry>, id: string): (k: Option<nat>)
    ensures k.None? <==> forall i :: 0 <= i < |entries| ==> entries[i].id != id
    ensures k.Some? ==> k.value < |entries| && entries[k.value].id == id
    ensures k.Some? ==> forall i :: 0 <= i < k.value ==> entries[i].id != id
  {
    if entries == [] then None
    else if entries[0].id == id then Some(0)
    else
      var rest := Position(entries[1..], id);
      if rest.Some? then Some(rest.value + 1) else None
  }

  function Without(s: seq<Entry>, k: nat): seq<Entry>
    requires k < |s|
  {
    s[..k] + s[k + 1..]
  }

  function Removed(entries: seq<Entry>, id: string): seq<Entry> {
    var k := Position(entries, id);
    if k.None? then entries else Without(entries, k.value)
  }

  function Newest(entries: seq<Entry>): seq<Entry> {
    if |entries| > MAX_REGISTRY_ENTRIES then entries[|entries| - MAX_REGISTRY_ENTRIES..] else entries
  }

  /** The queue the registry keeps. */
  function Bounded(history: seq<Event>): seq<Entry> {
    if history == [] then []
    else
      var before := Bounded(history[..|history| - 1]);
      match history[|history| - 1]
      case Registered(id, html) => Newest(before + [Entry(id, html)])
      case Unregistered(id) => Removed(before, id)
  }

  /** What it would keep without a cap: everything registered and not unregistered, oldest first. */
  function Unbounded(history: seq<Event>): seq<Entry> {
    if history == [] then []
    else
      var before := Unbounded(history[..|history| - 1]);
      match history[|history| - 1]
      case Registered(id, html) => before + [Entry(id, html)]
      case Unregistered(id) => Removed(before, id)
  }

  /** Ids are never drawn twice. */
  ghost predicate FreshIds(history: seq<Event>) {
    forall i, j :: 0 <= i < j < |history| && history[i].Registered? && history[j].Registered? ==> history[i].id != history[j].id
  }

  ghost predicate DistinctIds(entries: seq<Entry>) {
    forall i, j :: 0 <= i < j < |entries| ==> entries[i].id != entries[j].id
  }

  ghost predicate RegisteredAt(history: seq<Event>, i: int, entry: Entry) {
    0 <= i < |history| && history[i] == Registered(entry.id, entry.html)
  }

  /** Registered at `i` and not unregistered since. */
  ghost predicate Kept(history: seq<Event>, i: int, entry: Entry) {
    RegisteredAt(history, i, entry) && forall j :: i < j < |history| ==> history[j] != Unregistered(entry.id)
  }

  lemma {:induction false} RemovedMeans(entries: seq<Entry>, id: string)
    requires DistinctIds(entries)
    ensures DistinctIds(Removed(entries, id))
    ensures forall e :: e in Removed(entries, id) <==> e in entries && e.id != id
  {
    var k := Position(entries, id);
    if k.Some? {
      var r := Removed(entries, id);
      forall e
        ensures e in r <==> e in entries && e.id != id
      {
        if e in entries && e.id != id {
          var i :| 0 <= i < |entries| && entries[i] == e;
          assert r[if i < k.value then i else i - 1] == e;
        }
      }
    }
  }

  ghost predicate IsKept(history: seq<Event>, entry: Entry) {
    exists i :: Kept(history, i, entry)
  }

  lemma {:induction false} IsKeptStep(history: seq<Event>, entry: Entry)
    requires history != []
    ensures IsKept(history, entry) <==>
            || history[|history| - 1] == Registered(entry.id, entry.html)
            || (IsKept(history[..|history| - 1], entry) && history[|history| - 1] != Unregistered(entry.id))
  {
    var n := |history| - 1;
    if history[n] == Registered(entry.id, entry.html) {
      assert Kept(history, n, entry);
    } else {
      assert !Kept(history, n, entry);
      assert forall i :: 0 <= i < n ==> (Kept(history, i, entry) <==> Kept(history[..n], i, entry) && history[n] != Unregistered(entry.id));
    }
  }

  /** The unbounded queue holds exactly the entries registered and not unregistered since. */
  lemma {:induction false} UnboundedIsKept(history: seq<Event>, entry: Entry)
    requires FreshIds(history)
    ensures DistinctIds(Unbounded(history))
    ensures entry in Unbounded(history) <==> IsKept(history, entry)
  {
    if history != [] {
      var n := |history| - 1;
      var before := Unbounded(history[..n]);
      UnboundedIsKept(history[..n], entry);
      IsKeptStep(history, entry);
      match history[n] {
        case Registered(id, html) =>
          NewIdIsNew(history, n);
          assert forall e :: e in before + [Entry(id, html)] <==> e in before || e == Entry(id, html);
        case Unregistered(id) =>
          RemovedMeans(before, id);
      }
    }
  }

  lemma {:induction false} NewIdIsNew(history: seq<Event>, n: nat)
    requires FreshIds(history) && n < |history| && history[n].Registered?
    ensures forall e :: e in Unbounded(history[..n]) ==> e.id != history[n].id
  {
    forall e | e in Unbounded(history[..n])
      ensures e.id != history[n].id
    {
      KeptWasRegistered(history[..n], e);
      var i :| RegisteredAt(history[..n], i, e);
      assert history[i].id == e.id;
    }
  }

  lemma {:induction false} KeptWasRegistered(history: seq<Event>, entry: Entry)
    requires entry in Unbounded(history)
    ensures exists i :: RegisteredAt(history, i, entry)
  {
    var n := |history| - 1;
    var before := Unbounded(history[..n]);
    if entry in before {
      KeptWasRegistered(history[..n], entry);
      var i :| RegisteredAt(history[..n], i, entry);
      assert RegisteredAt(history, i, entry);
    } else {
      assert RegisteredAt(history, n, entry);
    }
  }

  // ---- The bounded queue refines the unbounded one ---------------------------------

  ghost predicate IsSuffix(q: seq<Entry>, u: seq<Entry>) {
    |q| <= |u| && q == u[|u| - |q|..]
  }

  lemma {:induction false} PositionInConcat(a: seq<Entry>, q: seq<Entry>, id: string)
    ensures Position(a + q, id) ==
            if Position(a, id).Some? then Position(a, id)
            else if Position(q, id).Some? then Some(|a| + Position(q, id).value) else None
  {
    var u := a + q;
    assert forall i :: 0 <= i < |a| ==> a[i] == u[i];
    assert forall i :: 0 <= i < |q| ==> q[i] == u[|a| + i];
  }

  lemma {:induction false} DropFromLeft(a: seq<Entry>, q: seq<Entry>, k: nat)
    requires k < |a|
    ensures Without(a + q, k) == Without(a, k) + q
  {
  }

  lemma {:induction false} DropFromRight(a: seq<Entry>, q: seq<Entry>, k: nat)
    requires k < |q|
    ensures Without(a + q, |a| + k) == a + Without(q, k)
  {
  }

  lemma {:induction false} RemovedFromConcat(a: seq<Entry>, q: seq<Entry>, id: string)
    requires Position(a, id).None? || Position(q, id).None?
    ensures Removed(a + q, id) == Removed(a, id) + Removed(q, id)
  {
    PositionInConcat(a, q, id);
    if Position(a, id).Some? {
      DropFromLeft(a, q, Position(a, id).value);
    } else if Position(q, id).Some? {
      DropFromRight(a, q, Position(q, id).value);
    }
  }

  lemma {:induction false} RemovedFromSuffix(q: seq<Entry>, u: seq<Entry>, id: string)
    requires IsSuffix(q, u) && DistinctIds(u)
    ensures IsSuffix(Removed(q, id), Removed(u, id))
  {
    var a := u[..|u| - |q|];
    assert u == a + q;
    assert forall i, j :: 0 <= i < |a| && 0 <= j < |q| ==> a[i].id != q[j].id by {
      assert forall i :: 0 <= i < |a| ==> a[i] == u[i];
      assert forall j :: 0 <= j < |q| ==> q[j] == u[|a| + j];
    }
    assert Position(a, id).None? || Position(q, id).None?;
    RemovedFromConcat(a, q, id);
    assert (Removed(a, id) + Removed(q, id))[|Removed(a, id)|..] == Removed(q, id);
  }

  lemma {:induction false} NewestIsSuffix(q: seq<Entry>, u: seq<Entry>, e: Entry)
    requires IsSuffix(q, u)
    ensures IsSuffix(Newest(q + [e]), u + [e])
  {
    assert IsSuffix(q + [e], u + [e]);
  }

  lemma {:induction false} SuffixDistinct(q: seq<Entry>, u: seq<Entry>)
    requires IsSuffix(q, u) && DistinctIds(u)
    ensures DistinctIds(q)
  {
    assert forall i :: 0 <= i < |q| ==> q[i] == u[|u| - |q| + i];
  }

  /** The registry holds the newest entries of the unbounded queue, never more than the cap. */
  lemma {:induction false} BoundedIsSuffix(history: seq<Event>)
    requires FreshIds(history)
    ensures |Bounded(history)| <= MAX_REGISTRY_ENTRIES
    ensures IsSuffix(Bounded(history), Unbounded(history))
    ensures DistinctIds(Unbounded(history)) && DistinctIds(Bounded(history))
  {
    UnboundedIsKept(history, Entry("", []));
    if history != [] {
      var n := |history| - 1;
      BoundedIsSuffix(history[..n]);
      match history[n] {
        case Registered(id, html) => NewestIsSuffix(Bounded(history[..n]), Unbounded(history[..n]), Entry(id, html));
        case Unregistered(id) => RemovedFromSuffix(Bounded(history[..n]), Unbounded(history[..n]), id);
      }
    }
    SuffixDistinct(Bounded(history), Unbounded(history));
  }

  /** How many entries are newer than the one with this id. */
  function Newer(u: seq<Entry>, id: string): nat {
    var k := Position(u, id);
    if k.Some? then |u| - 1 - k.value else 0
  }

  /** At no moment so far was the entry behind 64 newer ones that were not unregistered. */
  ghost predicate NeverOverflowed(history: seq<Event>, id: string) {
    forall t :: 0 <= t <= |history| ==> Newer(Unbounded(history[..t]), id) < 64
  }

  lemma {:induction false} InSuffix(q: seq<Entry>, u: seq<Entry>, id: string)
    requires IsSuffix(q, u) && DistinctIds(u)
    ensures Position(u, id).None? ==> Position(q, id).None?
    ensures Position(u, id).Some? ==> (Position(q, id).Some? <==> Newer(u, id) < |q|)
    ensures Position(q, id).Some? ==> q[Position(q, id).value] == u[Position(u, id).value]
  {
    var d := |u| - |q|;
    var k := Position(u, id);
    assert forall i :: 0 <= i < |q| ==> q[i] == u[d + i];
    if k.Some? && k.value >= d {
      assert q[k.value - d].id == id;
    }
  }

  lemma {:induction false} NeverOverflowedStep(history: seq<Event>, id: string)
    requires history != []
    ensures NeverOverflowed(history, id) <==>
            NeverOverflowed(history[..|history| - 1], id) && Newer(Unbounded(history), id) < 64
  {
    hide Newer, Unbounded;
    var n := |history| - 1;
    assert forall t :: 0 <= t <= n ==> history[..n][..t] == history[..t];
    assert history[..n + 1] == history;
  }

  lemma {:induction false} NotYetThere(history: seq<Event>, n: nat)
    requires FreshIds(history) && n < |history| && history[n].Registered?
    ensures NeverOverflowed(history[..n], history[n].id)
    ensures Position(Unbounded(history[..n]), history[n].id).None?
  {
    var id := history[n].id;
    forall t | 0 <= t <= n
      ensures Position(Unbounded(history[..t]), id).None?
    {
      forall e | e in Unbounded(history[..t])
        ensures e.id != id
      {
        KeptWasRegistered(history[..t], e);
        var i :| RegisteredAt(history[..t], i, e);
        assert history[i].id == e.id;
      }
    }
    assert forall t :: 0 <= t <= n ==> history[..n][..t] == history[..t];
    assert history[..n][..n] == history[..n];
  }

  lemma {:induction false} PositionOfAppended(u: seq<Entry>, e: Entry, id: string)
    ensures e.id != id ==> Position(u + [e], id) == Position(u, id)
    ensures e.id == id && Position(u, id).None? ==> Position(u + [e], id) == Some(|u|)
  {
    var v := u + [e];
    assert forall i :: 0 <= i < |u| ==> v[i] == u[i];
    assert v[|u|] == e;
  }

  lemma {:induction false} RemovedKeepsOthers(s: seq<Entry>, gone: string, id: string)
    requires gone != id
    ensures Position(Removed(s, gone), id).Some? <==> Position(s, id).Some?
    ensures Newer(Removed(s, gone), id) <= Newer(s, id)
  {
    var k := Position(s, gone);
    if k.Some? {
      var a, x, b := s[..k.value], [s[k.value]], s[k.value + 1..];
      assert s == (a + x) + b;
      PositionInConcat(a, x, id);
      PositionInConcat(a + x, b, id);
      PositionInConcat(a, b, id);
      assert Position(x, id).None?;
    }
  }

  /**
   An id is found exactly when it was registered, not unregistered since, and
   never the oldest at an overflow; then the entry is the registered one.
   */
  lemma {:induction false} SurvivesIff(history: seq<Event>, id: string)
    requires FreshIds(history)
    ensures Position(Bounded(history), id).Some? <==> Position(Unbounded(history), id).Some? && NeverOverflowed(history, id)
  {
    if history != [] {
      var n := |history| - 1;
      var q, u := Bounded(history[..n]), Unbounded(history[..n]);
      SurvivesIff(history[..n], id);
      BoundedIsSuffix(history[..n]);
      BoundedIsSuffix(history);
      InSuffix(q, u, id);
      InSuffix(Bounded(history), Unbounded(history), id);
      NeverOverflowedStep(history, id);
      hide DistinctIds, IsSuffix, NeverOverflowed, FreshIds;
      match history[n] {
        case Registered(added, html) =>
          PositionOfAppended(u, Entry(added, html), id);
          if added == id {
            NotYetThere(history, n);
          }
        case Unregistered(gone) =>
          if gone != id {
            RemovedKeepsOthers(q, gone, id);
            RemovedKeepsOthers(u, gone, id);
          } else {
            RemovedMeans(u, id);
          }
      }
    }
  }

  // ---- The registry ----------------------------------------------------------------

  method FindPosition(entries: seq<Entry>, id: string) returns (k: Option<nat>)
    ensures k == Position(entries, id)
  {
    var i := 0;
    while i < |entries|
      invariant 0 <= i <= |entries|
      invariant forall j :: 0 <= j < i ==> entries[j].id != id
    {
      if entries[i].id == id {
        return Some(i);
      }
      i := i + 1;
    }
    return None;
  }

  datatype RegisterError = EmptyHtml | TooLarge(bytes: nat)

  class InteractiveArtifactRegistry {
    var entries: seq<Entry>
    ghost var history: seq<Event>

    ghost predicate Valid()
      reads this
    {
      FreshIds(history) && entries == Bounded(history)
    }

    constructor ()
      ensures Valid() && history == []
    {
      entries := [];
      history := [];
    }

    method Register(id: string, html: Html)
      requires Valid() && FreshIds(history + [Registered(id, html)])
      modifies this
      ensures Valid() && history == old(history) + [Registered(id, html)]
      ensures |entries| <= 64
    {
      ghost var after := history + [Registered(id, html)];
      assert after[..|history|] == history;
      entries := entries + [Entry(id, html)];
      ghost var pushed := entries;
      while |entries| > MAX_REGISTRY_ENTRIES
        invariant history == old(history)
        invariant Newest(entries) == Newest(pushed)
      {
        entries := entries[1..];
      }
      history := after;
      BoundedIsSuffix(history);
    }

    /** `register_interactive_artifact`, given the random bytes of the id. */
    method RegisterInteractive(bytes: seq<bv8>, html: Html) returns (r: Result<string, RegisterError>)
      requires |bytes| == 16 && Valid() && FreshIds(history + [Registered(FreshId(bytes), html)])
      modifies this
      ensures Valid()
      ensures r.Ok? <==> 0 < |html| <= 2 * 1024 * 1024
      ensures r == Err(EmptyHtml) <==> html == []
      ensures r == Err(TooLarge(|html|)) <==> |html| > 2 * 1024 * 1024
      ensures r.Ok? ==> r.value == FreshId(bytes) && history == old(history) + [Registered(r.value, html)]
      ensures r.Err? ==> entries == old(entries) && history == old(history)
    {
      if |html| == 0 {
        return Err(EmptyHtml);
      }
      if |html| > MAX_ARTIFACT_BYTES {
        return Err(TooLarge(|html|));
      }
      var id := FreshId(bytes);
      Register(id, html);
      return Ok(id);
    }

    method Unregister(id: string) returns (existed: bool)
      requires Valid()
      modifies this
      ensures Valid() && history == old(history) + [Unregistered(id)]
      ensures existed <==> Position(Unbounded(old(history)), id).Some? && NeverOverflowed(old(history), id)
    {
      SurvivesIff(history, id);
      var k := FindPosition(entries, id);
      existed := k.Some?;
      if existed {
        entries := entries[..k.value] + entries[k.value + 1..];
      }
      history := history + [Unregistered(id)];
      assert history[..|history| - 1] == old(history);
    }

    /**
     A valid id is found exactly when it was registered, not unregistered since
     and never the oldest at an overflow; the answer is what was registered.
     */
    method Lookup(id: string) returns (html: Option<Html>)
      requires Valid()
      ensures html.Some? <==> IsValidId(id) && Position(Unbounded(history), id).Some? && NeverOverflowed(history, id)
      ensures html.Some? ==> IsKept(history, Entry(id, html.value))
    {
      if !IsValidId(id) {
        return None;
      }
      SurvivesIff(history, id);
      var k := FindPosition(entries, id);
      if k.None? {
        return None;
      }
      BoundedIsSuffix(history);
      assert entries[k.value] in Unbounded(history);
      UnboundedIsKept(history, entries[k.value]);
      return Some(entries[k.value].html);
    }

    /** `serve_artifact_request`; None is the empty 404. */
    method Serve(uri: Uri) returns (html: Option<Html>)
      requires Valid()
      ensures html.Some? <==> exists id ::
                && IdFromRequest(uri) == Some(id)
                && Position(Unbounded(history), id).Some? && NeverOverflowed(history, id)
      ensures html.Some? ==> IsKept(history, Entry(IdFromRequest(uri).value, html.value))
    {
      var id := IdFromRequest(uri);
      if id.None? {
        return None;
      }
      html := Lookup(id.value);
    }
  }
}
