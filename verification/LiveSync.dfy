/**
 Reconciling the running Xray's account lists with a rendered configuration
 (app/xray_manager.py, `sync_users_via_api`). The API may act on any subset of
 the accounts it is asked to remove or add, and reports how many that were.
 */
module LiveSync {
  import opened Prelude
  import opened Json
  import opened Rendering
  import opened LiveXray

  /**
   One `xray api rmu` or `adu` call: the accounts it would act on when asked to,
   and whether its summary line came back and could be parsed. A call that
   timed out has acted without being counted.
   */
  datatype CallReply = CallReply(acted: set<string>, counted: bool)

  /** The environment's side of one inbound: does it list, remove and add. */
  datatype TagReply = TagReply(answered: bool, removal: CallReply, addition: CallReply)

  datatype Replies = Replies(reality: TagReply, ws: TagReply) {
    function For(tag: string): TagReply {
      if tag == REALITY then reality else ws
    }
  }

  // ----- one inbound -------------------------------------------------------

  /** `api_list_users` skips entries without an e-mail. */
  function Listed(m: AccountList): AccountList {
    m - {""}
  }

  function Stale(m: AccountList, desired: AccountList): set<string> {
    set e | e in Listed(m) && (e !in desired || m[e] != desired[e])
  }

  function Additions(m: AccountList, desired: AccountList): set<string> {
    desired.Keys - (Listed(m).Keys - Stale(m, desired))
  }

  predicate Acknowledged(requested: set<string>, done: set<string>, counted: bool) {
    requested == {} || (counted && |done| >= |requested|)
  }

  /** Xray removes the requested accounts it acts on. */
  function RemoveFrom(m: AccountList, requested: set<string>, r: CallReply): AccountList {
    m - requested * r.acted
  }

  /** Xray refuses to add an e-mail it already has. */
  function Accepted(m: AccountList, requested: set<string>, r: CallReply): set<string> {
    requested * r.acted - m.Keys
  }

  function AddTo(m: AccountList, desired: AccountList, accepted: set<string>): AccountList {
    m + map e | e in accepted && e in desired :: desired[e]
  }

  predicate RemovalOk(m: AccountList, desired: AccountList, r: CallReply) {
    Acknowledged(Stale(m, desired), Stale(m, desired) * r.acted, r.counted)
  }

  function Trimmed(m: AccountList, desired: AccountList, r: CallReply): AccountList {
    RemoveFrom(m, Stale(m, desired), r)
  }

  predicate AdditionOk(m: AccountList, trimmed: AccountList, desired: AccountList, r: CallReply) {
    Acknowledged(Additions(m, desired), Accepted(trimmed, Additions(m, desired), r), r.counted)
  }

  function Grown(m: AccountList, trimmed: AccountList, desired: AccountList, r: CallReply): AccountList {
    AddTo(trimmed, desired, Accepted(trimmed, Additions(m, desired), r))
  }

  datatype TagResult = TagResult(ok: bool, trimmed: AccountList, after: AccountList, removed: nat, added: nat)

  function SyncTag(m: AccountList, desired: AccountList, r: TagReply): TagResult {
    if !r.answered then TagResult(false, m, m, 0, 0)
    else
      var trimmed := Trimmed(m, desired, r.removal);
      if !RemovalOk(m, desired, r.removal) then TagResult(false, trimmed, trimmed, 0, 0)
      else
        TagResult(AdditionOk(m, trimmed, desired, r.addition), trimmed, Grown(m, trimmed, desired, r.addition),
                  |Stale(m, desired)|, |Additions(m, desired)|)
  }

  /** A reported count no smaller than the request can only mean all of it. */
  lemma CountForcesAll(requested: set<string>, acted: set<string>, present: set<string>, counted: bool)
    ensures Acknowledged(requested, requested * acted - present, counted) <==>
            requested == {} || (counted && requested <= acted && requested !! present)
  {
    var done := requested * acted - present;
    assert requested == done + (requested - done);
    assert |requested| == |done| + |requested - done|;
    if requested <= acted && requested !! present { assert done == requested; }
    if |done| >= |requested| { assert requested - done == {}; }
  }

  lemma OnlyBlankClashes(m: AccountList, desired: AccountList)
    ensures Additions(m, desired) !! m.Keys - Stale(m, desired) <==> !("" in m && "" in desired)
    ensures "" in m ==> "" !in Stale(m, desired)
  {
    assert forall e | e in Additions(m, desired) && e in m.Keys - Stale(m, desired) :: e == "";
    if "" in m && "" in desired {
      assert "" in Additions(m, desired) && "" in m.Keys - Stale(m, desired);
    }
  }

  lemma RemovalForced(m: AccountList, desired: AccountList, r: CallReply)
    ensures RemovalOk(m, desired, r) <==> Stale(m, desired) == {} || (r.counted && Stale(m, desired) <= r.acted)
    ensures RemovalOk(m, desired, r) ==> Trimmed(m, desired, r) == m - Stale(m, desired)
  {
    var stale := Stale(m, desired);
    hide Stale;
    CountForcesAll(stale, r.acted, {}, r.counted);
    assert stale * r.acted - {} == stale * r.acted;
    if RemovalOk(m, desired, r) { assert stale * r.acted == stale; }
  }

  lemma AllAccepted(requested: set<string>, acted: set<string>, present: set<string>)
    requires requested == {} || (requested <= acted && requested !! present)
    ensures requested * acted - present == requested
  {
  }

  lemma GrownBy(m: AccountList, trimmed: AccountList, desired: AccountList, r: CallReply, accepted: set<string>)
    requires Accepted(trimmed, Additions(m, desired), r) == accepted
    ensures Grown(m, trimmed, desired, r) == AddTo(trimmed, desired, accepted)
  {
  }

  lemma AdditionForced(m: AccountList, trimmed: AccountList, desired: AccountList, r: CallReply)
    requires trimmed == m - Stale(m, desired)
    ensures AdditionOk(m, trimmed, desired, r) <==>
            || Additions(m, desired) == {}
            || (r.counted && Additions(m, desired) <= r.acted && !("" in m && "" in desired))
    ensures AdditionOk(m, trimmed, desired, r) ==>
              Grown(m, trimmed, desired, r) == AddTo(trimmed, desired, Additions(m, desired))
  {
    var additions := Additions(m, desired);
    OnlyBlankClashes(m, desired);
    hide Additions, Stale, Grown, AddTo;
    assert trimmed.Keys == m.Keys - Stale(m, desired);
    CountForcesAll(additions, r.acted, trimmed.Keys, r.counted);
    hide Acknowledged;
    if AdditionOk(m, trimmed, desired, r) {
      AllAccepted(additions, r.acted, trimmed.Keys);
      GrownBy(m, trimmed, desired, r, additions);
    }
  }

  /** Success is exactly: it listed, and it acted on everything it was asked to. */
  lemma SyncTagSucceedsIff(m: AccountList, desired: AccountList, r: TagReply)
    ensures SyncTag(m, desired, r).ok <==>
            && r.answered
            && (Stale(m, desired) == {} || (r.removal.counted && Stale(m, desired) <= r.removal.acted))
            && (Additions(m, desired) == {} ||
                (r.addition.counted && Additions(m, desired) <= r.addition.acted && !("" in m && "" in desired)))
  {
    RemovalForced(m, desired, r.removal);
    if RemovalOk(m, desired, r.removal) {
      AdditionForced(m, Trimmed(m, desired, r.removal), desired, r.addition);
    }
    hide Stale, Additions, RemovalOk, AdditionOk, Trimmed, Grown;
  }

  /** Whatever was live before, a successful sync leaves exactly the desired accounts. */
  lemma SyncTagReconciles(m: AccountList, desired: AccountList, r: TagReply)
    requires SyncTag(m, desired, r).ok
    ensures SyncTag(m, desired, r).after == (m - Listed(m).Keys) + desired
    ensures "" !in m ==> SyncTag(m, desired, r).after == desired
  {
    RemovalForced(m, desired, r.removal);
    AdditionForced(m, Trimmed(m, desired, r.removal), desired, r.addition);
    AllActedOn(m, desired);
    hide Stale, Additions, RemovalOk, AdditionOk, Trimmed, Grown, AddTo;
    if "" !in m { OnlyDesired(m, desired); }
  }

  lemma OnlyDesired(m: AccountList, desired: AccountList)
    requires "" !in m
    ensures (m - Listed(m).Keys) + desired == desired
  {
    assert (m - Listed(m).Keys).Keys == {};
  }

  lemma AllActedOn(m: AccountList, desired: AccountList)
    ensures AddTo(m - Stale(m, desired), desired, Additions(m, desired)) == (m - Listed(m).Keys) + desired
  {
    var after := AddTo(m - Stale(m, desired), desired, Additions(m, desired));
    var goal := (m - Listed(m).Keys) + desired;
    assert after.Keys == goal.Keys;
    forall e | e in goal ensures after[e] == goal[e] {}
  }

  /** An account whose uuid and flow are unchanged is there after every call, failed or not. */
  lemma UnchangedAccountsStay(m: AccountList, desired: AccountList, r: TagReply, e: string)
    requires e in m && e in desired && m[e] == desired[e]
    ensures var t := SyncTag(m, desired, r);
            && e in t.trimmed && t.trimmed[e] == m[e]
            && e in t.after && t.after[e] == m[e]
  {
    assert e !in Stale(m, desired);
    hide Stale, Additions;
  }

  lemma NoBlankStale(m: AccountList, desired: AccountList)
    requires "" !in m
    ensures forall e :: e in Stale(m, desired) <==> e in m && (e !in desired || m[e] != desired[e])
    ensures forall e :: e in Additions(m, desired) <==> e in desired && (e !in m || m[e] != desired[e])
  {
  }

  lemma SameSet(a: set<string>, b: set<string>)
    requires forall e :: e in a <==> e in b
    ensures a == b
  {
  }

  /** A success reports how many accounts it removed and how many it added. */
  lemma SyncTagCounts(m: AccountList, desired: AccountList, r: TagReply, gone: set<string>, missing: set<string>)
    requires "" !in m && SyncTag(m, desired, r).ok
    requires forall e :: (e in gone <==> e in m && (e !in desired || m[e] != desired[e]))
    requires forall e :: (e in missing <==> e in desired && (e !in m || m[e] != desired[e]))
    ensures SyncTag(m, desired, r).removed == |gone| && SyncTag(m, desired, r).added == |missing|
  {
    hide Stale, Additions, RemovalOk, AdditionOk, Trimmed, Grown;
    NoBlankStale(m, desired);
    SameSet(Stale(m, desired), gone);
    SameSet(Additions(m, desired), missing);
  }

  lemma TrimmedMeans(m: AccountList, desired: AccountList, r: CallReply, e: string)
    ensures var t := Trimmed(m, desired, r);
            (e in t <==> e in m && !(e in Stale(m, desired) && e in r.acted)) && (e in t ==> t[e] == m[e])
  {
    hide Stale;
  }

  lemma GrownMeans(m: AccountList, trimmed: AccountList, desired: AccountList, r: CallReply, e: string)
    ensures var g := Grown(m, trimmed, desired, r);
            && (e in g <==> e in trimmed || (e in Additions(m, desired) && e in r.acted))
            && (e in g ==> g[e] == if e in trimmed then trimmed[e] else desired[e])
  {
    hide Stale;
  }

  lemma StaleDiffers(m: AccountList, desired: AccountList, e: string)
    ensures e in Stale(m, desired) ==> e in m && (e !in desired || m[e] != desired[e])
    ensures e in Additions(m, desired) ==> e in desired
  {
  }

  /** Only what the API acted on changes: nobody else appears, disappears or gets other credentials. */
  lemma OnlyActedOnChanges(m: AccountList, desired: AccountList, r: TagReply, e: string)
    ensures var after := SyncTag(m, desired, r).after;
            && (e in after && (e !in m || after[e] != m[e]) ==>
                  e in desired && after[e] == desired[e] && e in r.addition.acted)
            && (e in m && e !in after ==> e in r.removal.acted && (e !in desired || m[e] != desired[e]))
  {
    hide RemovalOk, AdditionOk, Trimmed, Grown, Stale, Additions;
    TrimmedMeans(m, desired, r.removal, e);
    GrownMeans(m, Trimmed(m, desired, r.removal), desired, r.addition, e);
    StaleDiffers(m, desired, e);
  }

  /** A second sync right after a successful one has nothing to do. */
  lemma SecondSyncIsIdle(m: AccountList, desired: AccountList, r: TagReply, again: TagReply)
    requires SyncTag(m, desired, r).ok && "" !in desired
    ensures var after := SyncTag(m, desired, r).after;
            && Stale(after, desired) == {} && Additions(after, desired) == {}
            && (again.answered ==> SyncTag(after, desired, again) == TagResult(true, after, after, 0, 0))
  {
    SyncTagReconciles(m, desired, r);
    var after := SyncTag(m, desired, r).after;
    IdleWhenEqual(after, desired, again);
  }

  lemma IdleWhenEqual(m: AccountList, desired: AccountList, r: TagReply)
    requires forall e | e != "" :: (e in m <==> e in desired) && (e in m ==> m[e] == desired[e])
    requires "" !in desired
    ensures Stale(m, desired) == {} && Additions(m, desired) == {}
    ensures r.answered ==> SyncTag(m, desired, r) == TagResult(true, m, m, 0, 0)
  {
    assert Stale(m, desired) == {};
    assert Additions(m, desired) == {};
    hide Stale, Additions;
    if r.answered {
      assert Trimmed(m, desired, r.removal) == m;
      assert Accepted(m, {}, r.addition) == {};
      assert Grown(m, m, desired, r.addition) == m;
    }
  }

  // ----- all managed inbounds ----------------------------------------------

  /** `moments` are the states of the process after each API call. */
  datatype SyncResult = SyncResult(ok: bool, live: Live, moments: seq<Live>)

  function SyncTags(live: Live, config: Json, tags: seq<string>, r: Replies): SyncResult
    decreases |tags|
  {
    if tags == [] then SyncResult(true, live, [])
    else
      match DesiredAccounts(config, tags[0])
      case None => SyncTags(live, config, tags[1..], r)
      case Some(desired) =>
        if tags[0] !in live.lists then SyncResult(false, live, [])
        else
          var t := SyncTag(live.lists[tags[0]], desired, r.For(tags[0]));
          var mid := live.(lists := live.lists[tags[0] := t.trimmed]);
          var end := live.(lists := live.lists[tags[0] := t.after]);
          if !t.ok then SyncResult(false, end, [mid, end])
          else
            var rest := SyncTags(end, config, tags[1..], r);
            SyncResult(rest.ok, rest.live, [mid, end] + rest.moments)
  }

  ghost predicate Unique(tags: seq<string>) {
    forall i, j | 0 <= i < j < |tags| :: tags[i] != tags[j]
  }

  lemma {:induction false} SyncTouchesOnlyLists(live: Live, config: Json, tags: seq<string>, r: Replies)
    ensures var res := SyncTags(live, config, tags, r);
            && res.live.skeleton == live.skeleton && res.live.lists.Keys == live.lists.Keys
            && forall tag | tag in live.lists && tag !in tags :: res.live.lists[tag] == live.lists[tag]
    decreases |tags|
  {
    if tags != [] {
      match DesiredAccounts(config, tags[0])
      case None => SyncTouchesOnlyLists(live, config, tags[1..], r);
      case Some(desired) =>
        if tags[0] in live.lists {
          var t := SyncTag(live.lists[tags[0]], desired, r.For(tags[0]));
          var end := live.(lists := live.lists[tags[0] := t.after]);
          hide SyncTag;
          SyncTouchesOnlyLists(end, config, tags[1..], r);
          assert end.lists.Keys == live.lists.Keys;
        }
    }
  }

  ghost predicate NoBlank(lists: map<string, AccountList>) {
    forall tag | tag in lists :: "" !in lists[tag]
  }

  lemma TagNeverBlank(m: AccountList, desired: AccountList, r: TagReply)
    requires "" !in m && "" !in desired
    ensures "" !in SyncTag(m, desired, r).trimmed && "" !in SyncTag(m, desired, r).after
  {
    hide Stale, Additions, RemovalOk, AdditionOk;
  }

  /** The lists of one inbound may differ; structure and inbounds are the same, and no e-mail is blank. */
  ghost predicate SameShape(live: Live, other: Live) {
    other.skeleton == live.skeleton && other.lists.Keys == live.lists.Keys && NoBlank(other.lists)
  }

  /** At every moment of a sync, broken off or not. */
  lemma {:induction false} SyncMomentsKeepShape(live: Live, config: Json, tags: seq<string>, r: Replies)
    requires NoBlank(live.lists)
    requires forall tag | tag in tags && DesiredAccounts(config, tag).Some? :: "" !in DesiredAccounts(config, tag).value
    ensures var res := SyncTags(live, config, tags, r);
            SameShape(live, res.live) && forall k | 0 <= k < |res.moments| :: SameShape(live, res.moments[k])
    decreases |tags|
  {
    hide SyncTag, DesiredAccounts;
    if tags != [] {
      var tag, rest := tags[0], tags[1..];
      assert tag in tags && forall t | t in rest :: t in tags;
      match DesiredAccounts(config, tag)
      case None => SyncMomentsKeepShape(live, config, rest, r);
      case Some(desired) =>
        if tag in live.lists {
          var t := SyncTag(live.lists[tag], desired, r.For(tag));
          TagNeverBlank(live.lists[tag], desired, r.For(tag));
          var mid := live.(lists := live.lists[tag := t.trimmed]);
          var end := live.(lists := live.lists[tag := t.after]);
          assert mid.lists.Keys == live.lists.Keys && end.lists.Keys == live.lists.Keys;
          SyncMomentsKeepShape(end, config, rest, r);
        }
    }
  }

  /** What a successful sync makes of a list: the desired accounts, besides one the API does not list. */
  function Reconciled(m: AccountList, desired: AccountList): AccountList {
    (m - Listed(m).Keys) + desired
  }

  /** A successful sync makes every managed list equal to the rendered one, whatever was live before. */
  lemma {:induction false} SyncReconciles(live: Live, config: Json, tags: seq<string>, r: Replies)
    requires Unique(tags) && SyncTags(live, config, tags, r).ok
    ensures var after := SyncTags(live, config, tags, r).live.lists;
            forall tag | tag in tags && DesiredAccounts(config, tag).Some? ::
              && tag in live.lists && tag in after
              && after[tag] == Reconciled(live.lists[tag], DesiredAccounts(config, tag).value)
              && ("" !in live.lists[tag] ==> after[tag] == DesiredAccounts(config, tag).value)
    decreases |tags|
  {
    hide SyncTag, DesiredAccounts, Reconciled;
    if tags != [] {
      var tag, rest := tags[0], tags[1..];
      assert tag !in rest;
      match DesiredAccounts(config, tag)
      case None => SyncReconciles(live, config, rest, r);
      case Some(desired) =>
        TagReconciled(live.lists[tag], desired, r.For(tag));
        var end := live.(lists := live.lists[tag := SyncTag(live.lists[tag], desired, r.For(tag)).after]);
        SyncReconciles(end, config, rest, r);
        SyncTouchesOnlyLists(end, config, rest, r);
        assert forall t | t in rest && t in end.lists :: end.lists[t] == live.lists[t];
    }
  }

  lemma TagReconciled(m: AccountList, desired: AccountList, r: TagReply)
    requires SyncTag(m, desired, r).ok
    ensures SyncTag(m, desired, r).after == Reconciled(m, desired)
    ensures "" !in m ==> SyncTag(m, desired, r).after == desired
  {
    SyncTagReconciles(m, desired, r);
    hide SyncTag;
  }

  /** No call of a sync, failed or not, takes away an account that is to stay as it is. */
  lemma {:induction false} UnchangedStayThroughout(
      live: Live, config: Json, tags: seq<string>, r: Replies, tag: string, e: string)
    requires Unique(tags) && tag in live.lists && e in live.lists[tag]
    requires DesiredAccounts(config, tag).Some? && e in DesiredAccounts(config, tag).value
    requires live.lists[tag][e] == DesiredAccounts(config, tag).value[e]
    ensures forall k | 0 <= k < |SyncTags(live, config, tags, r).moments| ::
              var now := SyncTags(live, config, tags, r).moments[k].lists;
              tag in now && e in now[tag] && now[tag][e] == live.lists[tag][e]
    decreases |tags|
  {
    if tags != [] {
      match DesiredAccounts(config, tags[0])
      case None => UnchangedStayThroughout(live, config, tags[1..], r, tag, e);
      case Some(desired) =>
        if tags[0] in live.lists {
          var t := SyncTag(live.lists[tags[0]], desired, r.For(tags[0]));
          if tags[0] == tag { UnchangedAccountsStay(live.lists[tag], desired, r.For(tag), e); }
          hide SyncTag, DesiredAccounts;
          var mid := live.(lists := live.lists[tags[0] := t.trimmed]);
          var end := live.(lists := live.lists[tags[0] := t.after]);
          if t.ok {
            UnchangedStayThroughout(end, config, tags[1..], r, tag, e);
            var rest := SyncTags(end, config, tags[1..], r).moments;
            assert SyncTags(live, config, tags, r).moments == [mid, end] + rest;
          } else {
            assert SyncTags(live, config, tags, r).moments == [mid, end];
          }
        }
    }
  }
}
