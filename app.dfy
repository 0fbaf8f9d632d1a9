/** The state of the `App` component (App.js) and the handlers that change
    it. Every value the chain, the wallet or a library returns is a
    parameter: the fetched property tuple and `isOwner` reply, the property
    count, each per-index fetch, the new owner of a sale, the outcome of
    each transaction and `Date.now()`. */
module Client {
  import opened Wrappers
  import opened Text
  import opened PropertyCache
  import opened Markers
  import opened RevertReason
  import PropertyForm

  /** `confirmDialog` (App.js:22): `{show: false, propertyId: null, price: null}`
      or a shown dialog for one property at one price. */
  datatype ConfirmDialog = Closed | Open(propertyId: int, price: string)

  /** Why a handler stopped before setting any marker or sending anything. */
  datatype Abort = InvalidNumbers | MissingFields | OwnProperty | NotOwner

  /** How a handler ended: stopped by a guard, failed with the message its
      error toast shows after the handler's fixed prefix (`Error: ` for
      the dry run at App.js:460, `Failed to ...: ` elsewhere), or
      completed. */
  datatype Outcome = Aborted(reason: Abort) | Failed(message: string) | Completed

  /** The checks of `handleListProperty` before any call (App.js:428-444):
      the three counts must parse as integers, then the three text fields
      must be non-empty. `parseInt` is given, `None` standing for `NaN`. */
  function ListingCheck(d: PropertyForm.ListingData, parseInt: string -> Option<int>): (r: Option<Abort>)
    ensures r == None <==>
      parseInt(d.size).Some? && parseInt(d.bedrooms).Some? && parseInt(d.bathrooms).Some? &&
      d.name != "" && d.location != "" && d.description != ""
    ensures r == Some(InvalidNumbers) <==>
      parseInt(d.size).None? || parseInt(d.bedrooms).None? || parseInt(d.bathrooms).None?
    ensures r == Some(MissingFields) <==>
      parseInt(d.size).Some? && parseInt(d.bedrooms).Some? && parseInt(d.bathrooms).Some? &&
      (d.name == "" || d.location == "" || d.description == "")
  {
    if parseInt(d.size).None? || parseInt(d.bedrooms).None? || parseInt(d.bathrooms).None? then
      Some(InvalidNumbers)
    else if d.name == "" || d.location == "" || d.description == "" then
      Some(MissingFields)
    else
      None
  }

  /** Whatever the form hands to `onSubmit` passes the listing's own
      required-text check; only the integer parse can still stop it. */
  lemma SubmittedFormPassesTextCheck(f: PropertyForm.FormData, o: Reply<()>, parseInt: string -> Option<int>)
    requires PropertyForm.HandleSubmit(f, o).submitted.Some?
    ensures ListingCheck(PropertyForm.HandleSubmit(f, o).submitted.value, parseInt) != Some(MissingFields)
  {
  }

  /** The `for` loop of `loadProperties` (App.js:361-415), as a
      specification: entry `i` for each index below `n` whose fetch
      succeeded, in index order. */
  function Loaded(n: nat, fetchAt: nat -> Reply<Fetched>): (r: seq<Property>)
    ensures |r| <= n
  {
    if n == 0 then []
    else
      var prefix := Loaded(n - 1, fetchAt);
      var reply := fetchAt(n - 1);
      if reply.Returned? then prefix + [Format(n - 1, reply.value)] else prefix
  }

  /** A reload lists only ids below the count, in strictly ascending
      order, hence without duplicates. */
  lemma {:induction false} LoadedAscending(n: nat, fetchAt: nat -> Reply<Fetched>)
    ensures forall i :: 0 <= i < |Loaded(n, fetchAt)| ==> 0 <= Loaded(n, fetchAt)[i].id < n
    ensures forall i, j :: 0 <= i < j < |Loaded(n, fetchAt)| ==> Loaded(n, fetchAt)[i].id < Loaded(n, fetchAt)[j].id
    ensures UniqueIds(Loaded(n, fetchAt))
  {
    if n > 0 {
      LoadedAscending(n - 1, fetchAt);
    }
  }

  /** A reload holds an entry for index `k` exactly when the fetch of `k`
      succeeded. */
  lemma {:induction false} LoadedHasId(n: nat, fetchAt: nat -> Reply<Fetched>, k: int)
    requires 0 <= k < n
    ensures HasId(Loaded(n, fetchAt), k) <==> fetchAt(k).Returned?
  {
    var prefix := Loaded(n - 1, fetchAt);
    var r := Loaded(n, fetchAt);
    LoadedAscending(n - 1, fetchAt);
    if k < n - 1 {
      LoadedHasId(n - 1, fetchAt, k);
      if HasId(r, k) {
        var i :| 0 <= i < |r| && r[i].id == k;
        assert i < |prefix|;
        assert prefix[i] == r[i];
      }
      if HasId(prefix, k) {
        var i :| 0 <= i < |prefix| && prefix[i].id == k;
        assert r[i] == prefix[i];
      }
    } else {
      if fetchAt(k).Returned? {
        assert r[|prefix|].id == k;
      }
    }
  }

  /** The loop itself: `allProperties` and `userOwnedProperties` pushed
      index by index. The owned list is exactly what "My Properties" would
      show of the full list. */
  method FetchAll(count: int, fetchAt: nat -> Reply<Fetched>) returns (all: seq<Property>, owned: seq<Property>)
    ensures count <= 0 ==> all == [] && owned == []
    ensures count > 0 ==> all == Loaded(count, fetchAt)
    ensures owned == MyPropertiesView(all)
  {
    all, owned := [], [];
    if count > 0 {
      for i := 0 to count
        invariant all == Loaded(i, fetchAt)
        invariant owned == MyPropertiesView(all)
      {
        var reply := fetchAt(i);
        if reply.Returned? {
          var p := Format(i, reply.value);
          assert Loaded(i + 1, fetchAt) == all + [p];
          MyPropertiesViewAppend(all, p);
          assert p.isCurrentUserOwner == reply.value.isOwner;
          all := all + [p];
          if reply.value.isOwner {
            owned := owned + [p];
          }
        } else {
          assert Loaded(i + 1, fetchAt) == all;
        }
      }
    }
  }

  /** The component's state fields that the handlers update. */
  class App {
    var properties: seq<Property>
    var userProperties: seq<Property>
    var transactionsInProgress: set<Marker>
    var confirmDialog: ConfirmDialog
    var selectedAccount: nat
    var accounts: seq<string>
    var loading: bool

    /** The initial state (App.js:13-22), with the accounts the wallet
        reports (App.js:103-104). */
    constructor (accs: seq<string>)
      ensures properties == [] && userProperties == [] && transactionsInProgress == {}
      ensures confirmDialog == Closed && selectedAccount == 0 && accounts == accs && loading
    {
      properties, userProperties, transactionsInProgress := [], [], {};
      confirmDialog, selectedAccount, accounts, loading := Closed, 0, accs, true;
    }

    /** `accounts[selectedAccount]`, which is `undefined` when out of range. */
    function CurrentAccount(): (a: Option<string>)
      reads this
      ensures a.Some? <==> selectedAccount < |accounts|
    {
      if selectedAccount < |accounts| then Some(accounts[selectedAccount]) else None
    }

    /** The PropertyListed listener (App.js:146-222). `fetched` is the
        listener's `getProperty` and `isOwner` replies; an error delivered
        with the event, or a failing call, changes nothing. */
    method OnPropertyListed(id: int, fetched: Reply<Fetched>)
      modifies this
      ensures fetched.Threw? ==>
        properties == old(properties) && userProperties == old(userProperties)
        && transactionsInProgress == old(transactionsInProgress)
      ensures fetched.Returned? ==>
        var p := Format(id, fetched.value);
        && properties == Upsert(old(properties), p)
        && userProperties == (if fetched.value.isOwner then Upsert(old(userProperties), p) else old(userProperties))
        && transactionsInProgress == ClearListed(old(transactionsInProgress), id)
      ensures UniqueIds(old(properties)) ==> UniqueIds(properties)
      ensures confirmDialog == old(confirmDialog) && selectedAccount == old(selectedAccount)
      ensures accounts == old(accounts) && loading == old(loading)
    {
      if fetched.Returned? {
        var p := Format(id, fetched.value);
        if UniqueIds(properties) {
          UpsertKeepsUniqueIds(properties, p);
        }
        properties := Upsert(properties, p);
        if fetched.value.isOwner {
          userProperties := Upsert(userProperties, p);
        }
        transactionsInProgress := ClearListed(transactionsInProgress, id);
      }
    }

    /** The PropertySold listener (App.js:224-305). The comparison with
        `newOwner` happens before the `try`, so with no selected account
        the listener throws and changes nothing. */
    method OnPropertySold(id: int, newOwner: string, fetched: Reply<Fetched>)
      modifies this
      ensures old(CurrentAccount()).None? || fetched.Threw? ==>
        properties == old(properties) && userProperties == old(userProperties)
        && transactionsInProgress == old(transactionsInProgress)
      ensures old(CurrentAccount()).Some? && fetched.Returned? ==>
        var p := Format(id, fetched.value);
        && properties == ReplaceById(old(properties), id, p)
        && userProperties == (if EqualIgnoringCase(old(CurrentAccount()).value, newOwner)
                              then Upsert(old(userProperties), p)
                              else RemoveById(old(userProperties), id))
        && transactionsInProgress == ClearSold(old(transactionsInProgress), id)
      ensures UniqueIds(old(properties)) ==> UniqueIds(properties)
      ensures UniqueIds(old(userProperties)) ==> UniqueIds(userProperties)
      ensures confirmDialog == old(confirmDialog) && selectedAccount == old(selectedAccount)
      ensures accounts == old(accounts) && loading == old(loading)
    {
      var account := CurrentAccount();
      if account.Some? && fetched.Returned? {
        var currentUserIsNewOwner := EqualIgnoringCase(account.value, newOwner);
        var p := Format(id, fetched.value);
        properties := ReplaceById(properties, id, p);
        if currentUserIsNewOwner {
          if UniqueIds(userProperties) {
            UpsertKeepsUniqueIds(userProperties, p);
          }
          userProperties := Upsert(userProperties, p);
        } else {
          if UniqueIds(userProperties) {
            RemoveKeepsUniqueIds(userProperties, id);
          }
          userProperties := RemoveById(userProperties, id);
        }
        transactionsInProgress := ClearSold(transactionsInProgress, id);
      }
    }

    /** `updatePropertyInUI` (App.js:309-359), run after a toggle or a price
        change: the lists keep their lengths. */
    method UpdatePropertyInUI(id: int, fetched: Reply<Fetched>)
      modifies this
      ensures fetched.Threw? ==>
        properties == old(properties) && userProperties == old(userProperties)
        && transactionsInProgress == old(transactionsInProgress)
      ensures fetched.Returned? ==>
        var p := Format(id, fetched.value);
        && properties == ReplaceById(old(properties), id, p)
        && userProperties == (if fetched.value.isOwner then ReplaceById(old(userProperties), id, p) else old(userProperties))
        && transactionsInProgress == ClearRefreshed(old(transactionsInProgress), id)
      ensures |properties| == |old(properties)| && |userProperties| == |old(userProperties)|
      ensures UniqueIds(old(properties)) ==> UniqueIds(properties)
      ensures confirmDialog == old(confirmDialog) && selectedAccount == old(selectedAccount)
      ensures accounts == old(accounts) && loading == old(loading)
    {
      if fetched.Returned? {
        var p := Format(id, fetched.value);
        ReplaceKeepsIds(properties, p);
        properties := ReplaceById(properties, id, p);
        if fetched.value.isOwner {
          userProperties := ReplaceById(userProperties, id, p);
        }
        transactionsInProgress := ClearRefreshed(transactionsInProgress, id);
      }
    }

    /** `loadProperties` (App.js:361-420): `count` is the
        `getPropertyCount` reply and `fetchAt(i)` the replies for index `i`.
        A failing count leaves the lists alone. */
    method LoadProperties(count: Reply<int>, fetchAt: nat -> Reply<Fetched>)
      modifies this
      ensures count.Threw? ==> properties == old(properties) && userProperties == old(userProperties)
      ensures count.Returned? && count.value <= 0 ==> properties == [] && userProperties == []
      ensures count.Returned? && count.value > 0 ==> properties == Loaded(count.value, fetchAt)
      ensures count.Returned? ==> userProperties == MyPropertiesView(properties) && UniqueIds(properties)
      ensures count.Returned? ==> IsSubsequence(userProperties, properties)
      ensures transactionsInProgress == old(transactionsInProgress)
      ensures confirmDialog == old(confirmDialog) && selectedAccount == old(selectedAccount)
      ensures accounts == old(accounts) && loading == old(loading)
    {
      if count.Returned? {
        var all, owned := FetchAll(count.value, fetchAt);
        if count.value > 0 {
          LoadedAscending(count.value, fetchAt);
        }
        properties, userProperties := all, owned;
      }
    }

    /** `handleListProperty` (App.js:422-543), the `onSubmit` of the form.
        `toWei` is the price conversion, `dryRun` the `.call()` check,
        `now` the value of `Date.now()`, and `sent` the `.send()` followed
        by the `getProperty` and `isOwner` reads: the new id and replies. */
    method HandleListProperty(d: PropertyForm.ListingData, toWei: Reply<string>, parseInt: string -> Option<int>,
                              dryRun: Reply<()>, now: int, sent: Reply<(int, Fetched)>)
      returns (outcome: Outcome)
      modifies this
      ensures !loading
      ensures toWei.Threw? ==>
        outcome == Failed(toWei.message)
        && properties == old(properties) && userProperties == old(userProperties)
        && (forall x :: x in transactionsInProgress <==> x in old(transactionsInProgress) && !x.List?)
      ensures toWei.Returned? && ListingCheck(d, parseInt).Some? ==>
        outcome == Aborted(ListingCheck(d, parseInt).value)
        && properties == old(properties) && userProperties == old(userProperties)
        && transactionsInProgress == old(transactionsInProgress)
      ensures toWei.Returned? && ListingCheck(d, parseInt).None? && dryRun.Threw? ==>
        outcome == Failed(ExtractReason(dryRun.message, RevertSpace))
        && properties == old(properties) && userProperties == old(userProperties)
        && transactionsInProgress == old(transactionsInProgress)
      ensures toWei.Returned? && ListingCheck(d, parseInt).None? && dryRun.Returned? && sent.Threw? ==>
        outcome == Failed(sent.message)
        && properties == old(properties) && userProperties == old(userProperties)
        && (forall x :: x in transactionsInProgress <==> x in old(transactionsInProgress) && !x.List?)
      ensures toWei.Returned? && ListingCheck(d, parseInt).None? && dryRun.Returned? && sent.Returned? ==>
        var p := Format(sent.value.0, sent.value.1);
        && outcome == Completed
        && properties == old(properties) + [p] && userProperties == old(userProperties) + [p]
        && transactionsInProgress == Unmark(old(transactionsInProgress), List(now))
      ensures confirmDialog == old(confirmDialog) && selectedAccount == old(selectedAccount)
      ensures accounts == old(accounts)
    {
      loading := true;
      if toWei.Threw? {
        outcome := Failed(toWei.message);
        loading := false;
        transactionsInProgress := SweepListMarkers(transactionsInProgress);
        return;
      }
      var rejected := ListingCheck(d, parseInt);
      if rejected.Some? {
        loading := false;
        return Aborted(rejected.value);
      }
      if dryRun.Threw? {
        loading := false;
        return Failed(ExtractReason(dryRun.message, RevertSpace));
      }
      transactionsInProgress := Mark(transactionsInProgress, List(now));
      match sent
      case Threw(message) =>
        outcome := Failed(message);
        loading := false;
        transactionsInProgress := SweepListMarkers(transactionsInProgress);
      case Returned((id, f)) =>
        var p := Format(id, f);
        properties := properties + [p];
        userProperties := userProperties + [p];
        transactionsInProgress := Unmark(transactionsInProgress, List(now));
        loading := false;
        outcome := Completed;
    }

    /** `handleAccountChange` up to the reload (App.js:545-552): select the
        account, empty both lists and set `loading`. The reload that follows
        is `ReloadAfterAccountChange`; pending markers are kept. */
    method HandleAccountChange(index: nat)
      modifies this
      ensures selectedAccount == index && properties == [] && userProperties == [] && loading
      ensures MarketplaceView(properties) == [] && MyPropertiesView(properties) == []
      ensures transactionsInProgress == old(transactionsInProgress)
      ensures confirmDialog == old(confirmDialog) && accounts == old(accounts)
    {
      selectedAccount := index;
      properties, userProperties := [], [];
      loading := true;
    }

    /** The continuation of an account switch once a contract is loaded
        (App.js:555-563): reload for the new account, then clear `loading`.
        The reload catches its own errors, so `loading` is cleared on every
        path. Without a contract this step does not run and `loading`
        stays set. */
    method ReloadAfterAccountChange(count: Reply<int>, fetchAt: nat -> Reply<Fetched>)
      modifies this
      ensures !loading
      ensures count.Threw? ==> properties == old(properties) && userProperties == old(userProperties)
      ensures count.Returned? && count.value <= 0 ==> properties == [] && userProperties == []
      ensures count.Returned? && count.value > 0 ==> properties == Loaded(count.value, fetchAt)
      ensures count.Returned? ==> userProperties == MyPropertiesView(properties) && UniqueIds(properties)
      ensures transactionsInProgress == old(transactionsInProgress)
      ensures confirmDialog == old(confirmDialog) && selectedAccount == old(selectedAccount)
      ensures accounts == old(accounts)
    {
      LoadProperties(count, fetchAt);
      loading := false;
    }

    /** `handleBuyProperty` (App.js:566-578): open the confirmation dialog. */
    method HandleBuyProperty(id: int, price: string)
      modifies this`confirmDialog
      ensures confirmDialog == Open(id, price)
    {
      confirmDialog := Open(id, price);
    }

    /** The dialog's Cancel button (App.js:786). */
    method CancelPurchase()
      modifies this`confirmDialog
      ensures confirmDialog == Closed
    {
      confirmDialog := Closed;
    }

    /** `confirmPurchase` (App.js:580-635). The Confirm button exists only
        while the dialog is shown (App.js:776-799). `isOwner` is the
        ownership check, `toWei` the price conversion, `sent` the
        `buyProperty` transaction, and `count`/`fetchAt` the replies of the
        reload that follows it. */
    method ConfirmPurchase(isOwner: Reply<bool>, toWei: Reply<string>, sent: Reply<()>,
                           count: Reply<int>, fetchAt: nat -> Reply<Fetched>)
      returns (outcome: Outcome)
      requires confirmDialog.Open?
      modifies this
      ensures confirmDialog == Closed && !loading
      ensures var id := old(confirmDialog).propertyId;
        && (isOwner.Returned? && isOwner.value ==>
              outcome == Aborted(OwnProperty)
              && transactionsInProgress == old(transactionsInProgress)
              && properties == old(properties) && userProperties == old(userProperties))
        && (isOwner.Threw? ==>
              outcome == Failed(HandlerReason(isOwner.message))
              && transactionsInProgress == Unmark(old(transactionsInProgress), Buy(id))
              && properties == old(properties) && userProperties == old(userProperties))
        && (isOwner.Returned? && !isOwner.value && toWei.Threw? ==>
              outcome == Failed(HandlerReason(toWei.message))
              && transactionsInProgress == Unmark(old(transactionsInProgress), Buy(id))
              && properties == old(properties) && userProperties == old(userProperties))
        && (isOwner.Returned? && !isOwner.value && toWei.Returned? && sent.Threw? ==>
              outcome == Failed(HandlerReason(sent.message))
              && transactionsInProgress == Unmark(old(transactionsInProgress), Buy(id))
              && properties == old(properties) && userProperties == old(userProperties))
        && (isOwner.Returned? && !isOwner.value && toWei.Returned? && sent.Returned? ==>
              outcome == Completed
              && transactionsInProgress == Mark(old(transactionsInProgress), Buy(id))
              && (count.Returned? && count.value > 0 ==> properties == Loaded(count.value, fetchAt))
              && (count.Returned? && count.value <= 0 ==> properties == [])
              && (count.Returned? ==> userProperties == MyPropertiesView(properties) && UniqueIds(properties))
              && (count.Threw? ==> properties == old(properties) && userProperties == old(userProperties)))
      ensures selectedAccount == old(selectedAccount) && accounts == old(accounts)
    {
      loading := true;
      var id := confirmDialog.propertyId;
      match isOwner {
      case Threw(message) =>
        outcome := Failed(HandlerReason(message));
        loading := false;
        transactionsInProgress := Unmark(transactionsInProgress, Buy(id));
      case Returned(owns) =>
        if owns {
          loading := false;
          outcome := Aborted(OwnProperty);
        } else {
          transactionsInProgress := Mark(transactionsInProgress, Buy(id));
          if toWei.Threw? || sent.Threw? {
            var message := if toWei.Threw? then toWei.message else sent.message;
            outcome := Failed(HandlerReason(message));
            loading := false;
            transactionsInProgress := Unmark(transactionsInProgress, Buy(id));
          } else {
            LoadProperties(count, fetchAt);
            loading := false;
            outcome := Completed;
          }
        }
      }
      confirmDialog := Closed;
    }

    /** `togglePropertyForSale` (App.js:637-696). `isOwner` is the ownership
        check, `sent` the `toggleForSale` transaction and `fetched` the
        replies read by the refresh that follows. */
    method TogglePropertyForSale(id: int, isOwner: Reply<bool>, sent: Reply<()>, fetched: Reply<Fetched>)
      returns (outcome: Outcome)
      modifies this
      ensures !loading
      ensures isOwner.Returned? && !isOwner.value ==>
        outcome == Aborted(NotOwner) && transactionsInProgress == old(transactionsInProgress)
        && properties == old(properties) && userProperties == old(userProperties)
      ensures isOwner.Threw? ==>
        outcome == Failed(HandlerReason(isOwner.message))
        && transactionsInProgress == Unmark(old(transactionsInProgress), Toggle(id))
        && properties == old(properties) && userProperties == old(userProperties)
      ensures isOwner.Returned? && isOwner.value && sent.Threw? ==>
        outcome == Failed(HandlerReason(sent.message))
        && transactionsInProgress == Unmark(old(transactionsInProgress), Toggle(id))
        && properties == old(properties) && userProperties == old(userProperties)
      ensures isOwner.Returned? && isOwner.value && sent.Returned? ==>
        outcome == Completed && |properties| == |old(properties)| && |userProperties| == |old(userProperties)|
        && (fetched.Returned? ==>
              var p := Format(id, fetched.value);
              && properties == ReplaceById(old(properties), id, p)
              && userProperties == (if fetched.value.isOwner then ReplaceById(old(userProperties), id, p)
                                    else old(userProperties))
              && transactionsInProgress == ClearRefreshed(Mark(old(transactionsInProgress), Toggle(id)), id))
        && (fetched.Threw? ==>
              properties == old(properties) && userProperties == old(userProperties)
              && transactionsInProgress == Mark(old(transactionsInProgress), Toggle(id)))
      ensures confirmDialog == old(confirmDialog) && selectedAccount == old(selectedAccount)
      ensures accounts == old(accounts)
    {
      loading := true;
      match isOwner
      case Threw(message) =>
        outcome := Failed(HandlerReason(message));
        loading := false;
        transactionsInProgress := Unmark(transactionsInProgress, Toggle(id));
      case Returned(owns) =>
        if !owns {
          loading := false;
          outcome := Aborted(NotOwner);
        } else {
          transactionsInProgress := Mark(transactionsInProgress, Toggle(id));
          if sent.Threw? {
            outcome := Failed(HandlerReason(sent.message));
            loading := false;
            transactionsInProgress := Unmark(transactionsInProgress, Toggle(id));
          } else {
            UpdatePropertyInUI(id, fetched);
            loading := false;
            outcome := Completed;
          }
        }
    }

    /** `updatePropertyPrice` (App.js:698-754). `toWei` is the conversion
        of `newPrice`, the other replies as for the toggle. */
    method UpdatePropertyPrice(id: int, newPrice: string, isOwner: Reply<bool>, toWei: Reply<string>,
                               sent: Reply<()>, fetched: Reply<Fetched>)
      returns (outcome: Outcome)
      modifies this
      ensures !loading
      ensures isOwner.Returned? && !isOwner.value ==>
        outcome == Aborted(NotOwner) && transactionsInProgress == old(transactionsInProgress)
        && properties == old(properties) && userProperties == old(userProperties)
      ensures isOwner.Threw? ==>
        outcome == Failed(HandlerReason(isOwner.message))
        && transactionsInProgress == Unmark(old(transactionsInProgress), Price(id))
        && properties == old(properties) && userProperties == old(userProperties)
      ensures isOwner.Returned? && isOwner.value && (toWei.Threw? || sent.Threw?) ==>
        outcome == Failed(HandlerReason(if toWei.Threw? then toWei.message else sent.message))
        && transactionsInProgress == Unmark(old(transactionsInProgress), Price(id))
        && properties == old(properties) && userProperties == old(userProperties)
      ensures isOwner.Returned? && isOwner.value && toWei.Returned? && sent.Returned? ==>
        outcome == Completed && |properties| == |old(properties)| && |userProperties| == |old(userProperties)|
        && (fetched.Returned? ==>
              var p := Format(id, fetched.value);
              && properties == ReplaceById(old(properties), id, p)
              && userProperties == (if fetched.value.isOwner then ReplaceById(old(userProperties), id, p)
                                    else old(userProperties))
              && transactionsInProgress == ClearRefreshed(Mark(old(transactionsInProgress), Price(id)), id))
        && (fetched.Threw? ==>
              properties == old(properties) && userProperties == old(userProperties)
              && transactionsInProgress == Mark(old(transactionsInProgress), Price(id)))
      ensures confirmDialog == old(confirmDialog) && selectedAccount == old(selectedAccount)
      ensures accounts == old(accounts)
    {
      loading := true;
      match isOwner
      case Threw(message) =>
        outcome := Failed(HandlerReason(message));
        loading := false;
        transactionsInProgress := Unmark(transactionsInProgress, Price(id));
      case Returned(owns) =>
        if !owns {
          loading := false;
          outcome := Aborted(NotOwner);
        } else {
          transactionsInProgress := Mark(transactionsInProgress, Price(id));
          if toWei.Threw? || sent.Threw? {
            var message := if toWei.Threw? then toWei.message else sent.message;
            outcome := Failed(HandlerReason(message));
            loading := false;
            transactionsInProgress := Unmark(transactionsInProgress, Price(id));
          } else {
            UpdatePropertyInUI(id, fetched);
            loading := false;
            outcome := Completed;
          }
        }
    }
  }
}
