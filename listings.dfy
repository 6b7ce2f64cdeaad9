/** `GetCreatedWorkspaces`, `GetUserWorkspaces` and `GetUserDropdownWorkspaces`: the
    workspaces a user created, with their budget shown only to a holder of VIEW REPORT,
    followed by the workspaces the user was added to, without the deleted ones (and, for
    the dropdown, without those where the user cannot manage bounties). */
module Listings {
  import opened WorkspaceState
  import Membership

  /** The read-only database queries the listings make, given as inputs. */
  datatype Queries = Queries(
    hasAccess: Access,                              // db.UserHasAccess
    hasManageBountyRoles: (string, string) -> bool, // userHasManageBountyRoles(pubkey, uuid)
    totalBudget: string -> nat,                     // GetWorkspaceBudget(uuid).TotalBudget
    bountyCount: string -> nat,                     // GetWorkspaceBountyCount(uuid)
    personPubKey: nat -> string,                    // GetPerson(id).OwnerPubKey
    createdBy: string -> seq<Workspace>,            // GetUserCreatedWorkspaces(pubkey)
    assignedTo: string -> seq<string>)              // GetUserAssignedWorkspaces(pubkey), their OrgUuid

  /** The budget a listing reports for workspace `uuid` to `pubkey`. */
  function ReportedBudget(q: Queries, pubkey: string, uuid: string): nat {
    if q.hasAccess(pubkey, uuid, ViewReport) then q.totalBudget(uuid) else 0
  }

  /** A listed workspace: the record with the reported budget and the bounty count of `uuid`. */
  function Decorate(q: Queries, pubkey: string, w: Workspace, uuid: string): Workspace {
    w.(budget := ReportedBudget(q, pubkey, uuid), bountyCount := q.bountyCount(uuid))
  }

  /** `GetCreatedWorkspaces`: fills in budget and bounty count of each created workspace
      in place, in the slice the database returned. */
  method GetCreatedWorkspaces(q: Queries, pubkey: string) returns (workspaces: seq<Workspace>)
    ensures var created := q.createdBy(pubkey);
      && |workspaces| == |created|
      && forall i :: 0 <= i < |created| ==>
           && workspaces[i] == created[i].(budget := workspaces[i].budget, bountyCount := q.bountyCount(created[i].uuid))
           && workspaces[i].budget == (if q.hasAccess(pubkey, created[i].uuid, ViewReport)
                                       then q.totalBudget(created[i].uuid) else 0)
  {
    var created := q.createdBy(pubkey);
    var a := new Workspace[|created|](i requires 0 <= i < |created| => created[i]);
    for index := 0 to a.Length
      invariant forall j :: 0 <= j < index ==> a[j] == Decorate(q, pubkey, created[j], created[j].uuid)
      invariant forall j :: index <= j < a.Length ==> a[j] == created[j]
    {
      var uuid := a[index].uuid;
      var bountyCount := q.bountyCount(uuid);
      var hasRole := q.hasAccess(pubkey, uuid, ViewReport);
      if hasRole {
        a[index] := a[index].(budget := q.totalBudget(uuid));
      } else {
        a[index] := a[index].(budget := 0);
      }
      a[index] := a[index].(bountyCount := bountyCount);
    }
    workspaces := a[..];
  }

  /** An assigned workspace is listed when it is not deleted and, for the dropdown, when
      the user may manage bounties in it. */
  predicate Shown(st: Store, q: Queries, pubkey: string, uuid: string, dropdown: bool) {
    !GetWorkspaceByUuid(st, uuid).deleted && (!dropdown || q.hasManageBountyRoles(pubkey, uuid))
  }

  /** The uuids among the assigned `uuids` whose workspace is listed, in order. */
  function ShownUuids(st: Store, q: Queries, pubkey: string, uuids: seq<string>, dropdown: bool): seq<string>
    decreases |uuids|
  {
    if uuids == [] then []
    else (if Shown(st, q, pubkey, uuids[0], dropdown) then [uuids[0]] else [])
         + ShownUuids(st, q, pubkey, uuids[1..], dropdown)
  }

  /** The tail of the listing: the assigned workspaces, looked up by uuid and decorated. */
  function AssignedListing(st: Store, q: Queries, pubkey: string, uuids: seq<string>, dropdown: bool)
    : (listing: seq<Workspace>)
    ensures |listing| <= |uuids|
    ensures forall i :: 0 <= i < |listing| ==> !listing[i].deleted
    decreases |uuids|
  {
    if uuids == [] then []
    else
      var uuid := uuids[0];
      (if Shown(st, q, pubkey, uuid, dropdown) then [Decorate(q, pubkey, GetWorkspaceByUuid(st, uuid), uuid)] else [])
      + AssignedListing(st, q, pubkey, uuids[1..], dropdown)
  }

  /** The assigned part of a listing is the shown uuids, each looked up and decorated:
      so it holds no deleted workspace, keeps the order of the memberships, and reports a
      budget only where the user holds VIEW REPORT. */
  lemma {:induction false} AssignedListingIsShownUuids(st: Store, q: Queries, pubkey: string, uuids: seq<string>, dropdown: bool)
    ensures var shown := ShownUuids(st, q, pubkey, uuids, dropdown);
      var listing := AssignedListing(st, q, pubkey, uuids, dropdown);
      && |listing| == |shown|
      && (forall i :: 0 <= i < |shown| ==>
            && shown[i] in uuids
            && Shown(st, q, pubkey, shown[i], dropdown)
            && listing[i] == Decorate(q, pubkey, GetWorkspaceByUuid(st, shown[i]), shown[i])
            && !listing[i].deleted
            && listing[i].budget == ReportedBudget(q, pubkey, shown[i]))
    decreases |uuids|
  {
    if uuids != [] {
      AssignedListingIsShownUuids(st, q, pubkey, uuids[1..], dropdown);
      var rest := ShownUuids(st, q, pubkey, uuids[1..], dropdown);
      var shown := ShownUuids(st, q, pubkey, uuids, dropdown);
      forall i | 0 <= i < |rest| ensures rest[i] in uuids {
        assert rest[i] in uuids[1..];
      }
    }
  }

  /** Every assigned workspace that is shown does appear in the listing. */
  lemma {:induction false} AssignedListingComplete(st: Store, q: Queries, pubkey: string, uuids: seq<string>, dropdown: bool, k: nat)
    requires k < |uuids| && Shown(st, q, pubkey, uuids[k], dropdown)
    ensures Decorate(q, pubkey, GetWorkspaceByUuid(st, uuids[k]), uuids[k])
            in AssignedListing(st, q, pubkey, uuids, dropdown)
    decreases k
  {
    if k > 0 {
      assert uuids[1..][k - 1] == uuids[k];
      AssignedListingComplete(st, q, pubkey, uuids[1..], dropdown, k - 1);
    }
  }

  /** The dropdown's assigned part keeps a subset of the full listing's entries, and the
      two agree where the user may manage bounties in every assigned workspace. */
  lemma {:induction false} DropdownWithinFullListing(st: Store, q: Queries, pubkey: string, uuids: seq<string>)
    ensures var full := AssignedListing(st, q, pubkey, uuids, false);
      var dropdown := AssignedListing(st, q, pubkey, uuids, true);
      && |dropdown| <= |full|
      && (forall w :: w in dropdown ==> w in full)
      && ((forall i :: 0 <= i < |uuids| ==> q.hasManageBountyRoles(pubkey, uuids[i])) ==> dropdown == full)
    decreases |uuids|
  {
    if uuids != [] {
      DropdownWithinFullListing(st, q, pubkey, uuids[1..]);
      if forall i :: 0 <= i < |uuids| ==> q.hasManageBountyRoles(pubkey, uuids[i]) {
        assert q.hasManageBountyRoles(pubkey, uuids[0]);
        forall i | 0 <= i < |uuids[1..]| ensures q.hasManageBountyRoles(pubkey, uuids[1..][i]) {
          assert uuids[1..][i] == uuids[i + 1];
        }
      }
    }
  }

  /** One step of the listing loop: the listing of `uuids[i..]` is the entry for `uuids[i]`,
      if it is shown, followed by the listing of the rest. */
  lemma AssignedListingStep(st: Store, q: Queries, pubkey: string, uuids: seq<string>, dropdown: bool, i: nat)
    requires i < |uuids|
    ensures AssignedListing(st, q, pubkey, uuids[i..], dropdown)
      == (if Shown(st, q, pubkey, uuids[i], dropdown)
          then [Decorate(q, pubkey, GetWorkspaceByUuid(st, uuids[i]), uuids[i])] else [])
         + AssignedListing(st, q, pubkey, uuids[i + 1..], dropdown)
  {
    assert uuids[i..][0] == uuids[i] && uuids[i..][1..] == uuids[i + 1..];
  }

  /** The body of the listing loop for one assigned uuid: look the workspace up and, when
      it is shown, fill in its reported budget and bounty count. */
  method AssignedEntry(st: Store, q: Queries, pubkey: string, uuid: string, dropdown: bool)
    returns (shown: bool, organization: Workspace)
    ensures shown == Shown(st, q, pubkey, uuid, dropdown)
    ensures shown ==> organization == Decorate(q, pubkey, GetWorkspaceByUuid(st, uuid), uuid)
  {
    organization := GetWorkspaceByUuid(st, uuid);
    var bountyCount := q.bountyCount(uuid);
    var hasRole := q.hasAccess(pubkey, uuid, ViewReport);
    // only the dropdown asks about bounty-management roles
    shown := !organization.deleted && (!dropdown || q.hasManageBountyRoles(pubkey, uuid));
    if shown {
      if hasRole {
        organization := organization.(budget := q.totalBudget(uuid));
      } else {
        organization := organization.(budget := 0);
      }
      organization := organization.(bountyCount := bountyCount);
    }
  }

  /** The loop shared by both handlers: append each shown assigned workspace. */
  method AppendAssigned(st: Store, q: Queries, pubkey: string, workspaces: seq<Workspace>, dropdown: bool)
    returns (result: seq<Workspace>)
    ensures result == workspaces + AssignedListing(st, q, pubkey, q.assignedTo(pubkey), dropdown)
  {
    var uuids := q.assignedTo(pubkey);
    result := workspaces;
    for i := 0 to |uuids|
      invariant result + AssignedListing(st, q, pubkey, uuids[i..], dropdown)
                == workspaces + AssignedListing(st, q, pubkey, uuids, dropdown)
    {
      AssignedListingStep(st, q, pubkey, uuids, dropdown, i);
      var shown, organization := AssignedEntry(st, q, pubkey, uuids[i], dropdown);
      if shown {
        result := result + [organization];
      }
    }
    assert uuids[|uuids|..] == [];
  }

  /** `GetUserWorkspaces`: a zero user id is refused; otherwise the created workspaces,
      then every assigned workspace that is not deleted. */
  method GetUserWorkspaces(st: Store, q: Queries, userId: nat) returns (status: Status, workspaces: seq<Workspace>)
    ensures userId == 0 ==> status == NotAcceptable && workspaces == []
    ensures userId != 0 ==>
      var pubkey := q.personPubKey(userId);
      var created := q.createdBy(pubkey);
      && status == OK
      && |created| <= |workspaces|
      && (forall i :: 0 <= i < |created| ==>
            workspaces[i].budget == ReportedBudget(q, pubkey, created[i].uuid))
      && workspaces[|created|..] == AssignedListing(st, q, pubkey, q.assignedTo(pubkey), false)
      && workspaces[..|created|] == seq(|created|, i requires 0 <= i < |created| =>
                                        Decorate(q, pubkey, created[i], created[i].uuid))
  {
    if userId == 0 {
      return NotAcceptable, [];
    }
    var pubkey := q.personPubKey(userId);
    var created := GetCreatedWorkspaces(q, pubkey);
    workspaces := AppendAssigned(st, q, pubkey, created, false);
    status := OK;
  }

  /** `GetUserDropdownWorkspaces`: as `GetUserWorkspaces`, but an assigned workspace is
      listed only if the user may also manage bounties in it. */
  method GetUserDropdownWorkspaces(st: Store, q: Queries, userId: nat) returns (status: Status, workspaces: seq<Workspace>)
    ensures userId == 0 ==> status == NotAcceptable && workspaces == []
    ensures userId != 0 ==>
      var pubkey := q.personPubKey(userId);
      var created := q.createdBy(pubkey);
      && status == OK
      && |created| <= |workspaces|
      && (forall i :: 0 <= i < |created| ==>
            workspaces[i].budget == ReportedBudget(q, pubkey, created[i].uuid))
      && workspaces[|created|..] == AssignedListing(st, q, pubkey, q.assignedTo(pubkey), true)
      && workspaces[..|created|] == seq(|created|, i requires 0 <= i < |created| =>
                                        Decorate(q, pubkey, created[i], created[i].uuid))
  {
    if userId == 0 {
      return NotAcceptable, [];
    }
    var pubkey := q.personPubKey(userId);
    var created := GetCreatedWorkspaces(q, pubkey);
    workspaces := AppendAssigned(st, q, pubkey, created, true);
    status := OK;
  }

  /** Once its owner has deleted a workspace, no assigned listing shows it to anyone. */
  lemma DeletedWorkspaceNotListed(st: Store, caller: string, uuid: string, q: Queries, pubkey: string,
                                  uuids: seq<string>, dropdown: bool)
    requires Membership.DeleteWorkspace(st, caller, uuid, false, false).status == OK
    ensures uuid !in ShownUuids(Membership.DeleteWorkspace(st, caller, uuid, false, false).store, q, pubkey, uuids, dropdown)
  {
    var after := Membership.DeleteWorkspace(st, caller, uuid, false, false).store;
    AssignedListingIsShownUuids(after, q, pubkey, uuids, dropdown);
    assert !Shown(after, q, pubkey, uuid, dropdown);
  }
}
