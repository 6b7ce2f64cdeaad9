/** `CreateOrEditWorkspace`: validate a submitted workspace in a fixed order, then store
    it. A workspace unknown by uuid is a creation and gets its timestamps, a uuid if it had
    none, and a database id; a known one is an edit. */
module WorkspaceEdit {
  import opened WorkspaceState
  import opened Text

  const MaxNameBytes := 20
  const MaxDescriptionBytes := 120
  const GithubMarker := "github.com/"

  /** Why a submission was rejected, in the order the handler tests. */
  datatype EditRejection =
    | NoAuth            // no authenticated caller
    | BadName           // trimmed name empty or longer than 20 bytes
    | BadDescription    // description longer than 120 bytes
    | NoEditAccess      // a non-owner without EDIT ORGANIZATION
    | FailedValidation  // the struct validator refused it
    | BadGithub         // a github value without "github.com/"
    | EditOfMissing     // a non-zero id for a workspace that does not exist
    | NameTaken         // another workspace already has the name
    | WriteFailed       // the database write failed

  /** The HTTP status each rejection is answered with. */
  function StatusOf(e: EditRejection): (s: Status)
    ensures s == Unauthorized <==> e in {NoAuth, NoEditAccess, EditOfMissing, NameTaken}
    ensures s in {Unauthorized, BadRequest}
  {
    match e
    case NoAuth | NoEditAccess | EditOfMissing | NameTaken => Unauthorized
    case BadName | BadDescription | FailedValidation | BadGithub | WriteFailed => BadRequest
  }

  /** A database row id; the database numbers its rows from 1. */
  type RowId = n: nat | 0 < n witness 1

  /** What the handler learns from calls this model does not define. */
  datatype EditEnv = EditEnv(
    hasAccess: Access,                     // db.UserHasAccess
    passesValidation: Workspace -> bool,   // db.Validate.Struct
    byName: string -> Workspace,           // GetWorkspaceByName, the zero record if none
    now: nat,                              // time.Now()
    freshUuid: string,                     // xid.New().String()
    freshId: RowId,                        // the id the database gives a new row
    writeFails: bool)                      // db.CreateOrEditWorkspace returned an error

  /** The stored workspace and the store after the write. */
  datatype Saved = Saved(workspace: Workspace, store: Store)

  /** What every accepted workspace satisfies. */
  predicate WellFormed(w: Workspace) {
    && Trimmed(w.name)
    && 1 <= ByteLen(w.name) <= MaxNameBytes
    && ByteLen(w.description) <= MaxDescriptionBytes
    && (w.github == "" || Contains(w.github, GithubMarker))
  }

  /** The submission with its name trimmed, as the handler validates and stores it. */
  function TrimName(req: Workspace): (w: Workspace)
    ensures w.name == TrimSpace(req.name) && Trimmed(w.name)
    ensures w == req.(name := w.name)
  {
    req.(name := TrimSpace(req.name))
  }

  // The guards of the handler, each on the trimmed submission `w`.

  predicate NameOk(w: Workspace) {
    1 <= ByteLen(w.name) <= MaxNameBytes
  }

  predicate DescriptionOk(w: Workspace) {
    ByteLen(w.description) <= MaxDescriptionBytes
  }

  /** The caller is `owner` or holds EDIT ORGANIZATION in the workspace. */
  predicate MayEdit(env: EditEnv, caller: string, w: Workspace, owner: string) {
    caller == owner || env.hasAccess(caller, w.uuid, EditOrg)
  }

  predicate GithubOk(w: Workspace) {
    w.github == "" || Contains(w.github, GithubMarker)
  }

  /** No workspace is stored under the submitted uuid, so the submission is a creation. */
  predicate IsNew(st: Store, w: Workspace) {
    GetWorkspaceByUuid(st, w.uuid).id == 0
  }

  /** Another workspace, under a different uuid, already has the name. */
  predicate NameTakenBy(env: EditEnv, w: Workspace) {
    env.byName(w.name).name == w.name && env.byName(w.name).uuid != w.uuid
  }

  /** The guards after the authentication check, on the trimmed submission `w`, with
      `owner` the pubkey the ownership guard compares the caller with. The result is the
      first guard that fails, in the handler's order, or `None` when all pass. */
  function Rejection(st: Store, env: EditEnv, caller: string, w: Workspace, owner: string)
    : (g: Option<EditRejection>)
    ensures g == None <==>
      && NameOk(w) && DescriptionOk(w) && MayEdit(env, caller, w, owner)
      && env.passesValidation(w) && GithubOk(w)
      && (IsNew(st, w) ==> w.id == 0 && !NameTakenBy(env, w))
    ensures !NameOk(w) ==> g == Some(BadName)
    ensures NameOk(w) && !DescriptionOk(w) ==> g == Some(BadDescription)
    ensures NameOk(w) && DescriptionOk(w) && !MayEdit(env, caller, w, owner) ==> g == Some(NoEditAccess)
    ensures NameOk(w) && DescriptionOk(w) && MayEdit(env, caller, w, owner) && !env.passesValidation(w) ==>
      g == Some(FailedValidation)
    ensures (NameOk(w) && DescriptionOk(w) && MayEdit(env, caller, w, owner) && env.passesValidation(w)
             && !GithubOk(w)) ==> g == Some(BadGithub)
    ensures (NameOk(w) && DescriptionOk(w) && MayEdit(env, caller, w, owner) && env.passesValidation(w)
             && GithubOk(w) && IsNew(st, w) && w.id != 0) ==> g == Some(EditOfMissing)
    ensures (NameOk(w) && DescriptionOk(w) && MayEdit(env, caller, w, owner) && env.passesValidation(w)
             && GithubOk(w) && IsNew(st, w) && w.id == 0 && NameTakenBy(env, w)) ==> g == Some(NameTaken)
  {
    var existing := GetWorkspaceByUuid(st, w.uuid);
    if ByteLen(w.name) == 0 || ByteLen(w.name) > MaxNameBytes then Some(BadName)
    else if ByteLen(w.description) > MaxDescriptionBytes then Some(BadDescription)
    else if caller != owner && !env.hasAccess(caller, w.uuid, EditOrg) then Some(NoEditAccess)
    else if !env.passesValidation(w) then Some(FailedValidation)
    else if w.github != "" && !Contains(w.github, GithubMarker) then Some(BadGithub)
    else if existing.id == 0 && w.id != 0 then Some(EditOfMissing)
    else if existing.id == 0 && env.byName(w.name).name == w.name && env.byName(w.name).uuid != w.uuid
    then Some(NameTaken)
    else None
  }

  /** The record written for an accepted submission `w`: a new workspace gets its id, both
      timestamps and, if it had none, a fresh uuid; an edit is written as submitted. */
  function Written(st: Store, env: EditEnv, w: Workspace): Workspace {
    if GetWorkspaceByUuid(st, w.uuid).id == 0 then
      w.(id := env.freshId, created := Some(env.now), updated := Some(env.now),
         uuid := if |w.uuid| == 0 then env.freshUuid else w.uuid)
    else w
  }

  /** The whole handler. With `ownerFromStore` false the ownership guard compares the
      caller with the owner named in the submission, as the handler does; with it true an
      edit compares with the stored owner instead. */
  function Save(st: Store, env: EditEnv, caller: string, req: Workspace, ownerFromStore: bool)
    : (r: Result<Saved, EditRejection>)
    ensures caller == "" ==> r == Failure(NoAuth)
    // only the workspace written changes; memberships and people stay as they were
    ensures r.Success? ==>
      && r.value.store.members == st.members && r.value.store.people == st.people
      && r.value.workspace.uuid in r.value.store.workspaces
      && r.value.store.workspaces[r.value.workspace.uuid] == r.value.workspace
      && (forall u :: u in st.workspaces && u != r.value.workspace.uuid ==>
            u in r.value.store.workspaces && r.value.store.workspaces[u] == st.workspaces[u])
    // a success writes a record with an id, so a later lookup of its uuid finds it stored
    ensures r.Success? && IsNew(st, TrimName(req)) ==> r.value.workspace.id != 0
  {
    if caller == "" then Failure(NoAuth)
    else
      var w := TrimName(req);
      var existing := GetWorkspaceByUuid(st, req.uuid);
      var owner := if ownerFromStore && existing.id != 0 then existing.ownerPubKey else req.ownerPubKey;
      var g := Rejection(st, env, caller, w, owner);
      if g.Some? then Failure(g.value)
      else if env.writeFails then Failure(WriteFailed)
      else
        var t := Written(st, env, w);
        Success(Saved(t, st.(workspaces := st.workspaces[t.uuid := t])))
  }

  /** The handler as written. */
  function CreateOrEditWorkspace(st: Store, env: EditEnv, caller: string, req: Workspace)
    : (r: Result<Saved, EditRejection>)
    ensures caller == "" ==> r == Failure(NoAuth)
    ensures caller != "" && (ByteLen(TrimSpace(req.name)) == 0 || ByteLen(TrimSpace(req.name)) > MaxNameBytes) ==>
      r == Failure(BadName)
    ensures (caller != "" && 1 <= ByteLen(TrimSpace(req.name)) <= MaxNameBytes
             && ByteLen(req.description) > MaxDescriptionBytes) ==> r == Failure(BadDescription)
    // a non-owner without EDIT ORGANIZATION, once name and description pass
    ensures (caller != "" && 1 <= ByteLen(TrimSpace(req.name)) <= MaxNameBytes
             && ByteLen(req.description) <= MaxDescriptionBytes
             && caller != req.ownerPubKey && !env.hasAccess(caller, req.uuid, EditOrg)) ==>
      r == Failure(NoEditAccess)
    // a github value without the marker, once everything before it passes
    ensures (caller != "" && 1 <= ByteLen(TrimSpace(req.name)) <= MaxNameBytes
             && ByteLen(req.description) <= MaxDescriptionBytes
             && (caller == req.ownerPubKey || env.hasAccess(caller, req.uuid, EditOrg))
             && env.passesValidation(req.(name := TrimSpace(req.name)))
             && req.github != "" && !Contains(req.github, GithubMarker)) ==>
      r == Failure(BadGithub)
    ensures r.Success? ==>
      && WellFormed(r.value.workspace)
      && (caller == req.ownerPubKey || env.hasAccess(caller, req.uuid, EditOrg))
      && env.passesValidation(req.(name := TrimSpace(req.name)))
      && r.value.store == st.(workspaces := st.workspaces[r.value.workspace.uuid := r.value.workspace])
    // a creation: no id submitted, the name free, timestamps set, a uuid generated if missing
    ensures r.Success? && GetWorkspaceByUuid(st, req.uuid).id == 0 ==>
      && req.id == 0
      && !(env.byName(TrimSpace(req.name)).name == TrimSpace(req.name) && env.byName(TrimSpace(req.name)).uuid != req.uuid)
      && r.value.workspace == req.(name := TrimSpace(req.name), id := env.freshId,
           created := Some(env.now), updated := Some(env.now),
           uuid := if req.uuid == "" then env.freshUuid else req.uuid)
    // an edit: the submission, trimmed, replaces the stored record
    ensures r.Success? && GetWorkspaceByUuid(st, req.uuid).id != 0 ==>
      r.value.workspace == req.(name := TrimSpace(req.name))
    ensures caller != "" && GetWorkspaceByUuid(st, req.uuid).id == 0 && req.id != 0 ==> r.Failure?
    // acceptance: an authenticated submission passing every guard is saved unless the write fails
    ensures caller != "" ==>
      (r.Success? <==> Rejection(st, env, caller, TrimName(req), req.ownerPubKey) == None && !env.writeFails)
    // the rejection is the first failing guard, else the failed write
    ensures caller != "" && Rejection(st, env, caller, TrimName(req), req.ownerPubKey).Some? ==>
      r == Failure(Rejection(st, env, caller, TrimName(req), req.ownerPubKey).value)
    ensures caller != "" && Rejection(st, env, caller, TrimName(req), req.ownerPubKey) == None && env.writeFails ==>
      r == Failure(WriteFailed)
  {
    Save(st, env, caller, req, false)
  }

  /** A new workspace submitted by the owner it names, passing every guard, with no id and
      a free name, is created: it gets the fresh id and both timestamps, and the store then
      holds it under its uuid. */
  lemma CreationAccepted(st: Store, env: EditEnv, caller: string, req: Workspace)
    requires caller != "" && caller == req.ownerPubKey && req.id == 0
    requires var w := TrimName(req);
      && IsNew(st, w) && NameOk(w) && DescriptionOk(w) && env.passesValidation(w) && GithubOk(w)
      && !NameTakenBy(env, w)
    requires !env.writeFails
    ensures var r := CreateOrEditWorkspace(st, env, caller, req);
      && r.Success?
      && r.value.workspace.id == env.freshId
      && r.value.workspace.created == Some(env.now)
      && r.value.workspace.uuid in r.value.store.workspaces
      && r.value.store.workspaces[r.value.workspace.uuid] == r.value.workspace
  {
    assert Rejection(st, env, caller, TrimName(req), req.ownerPubKey) == None;
  }

  /** A submission that meets every guard is not rejected. */
  lemma RejectionNone(st: Store, env: EditEnv, caller: string, w: Workspace, owner: string)
    requires 1 <= ByteLen(w.name) <= MaxNameBytes && ByteLen(w.description) <= MaxDescriptionBytes
    requires caller == owner || env.hasAccess(caller, w.uuid, EditOrg)
    requires env.passesValidation(w)
    requires w.github == "" || Contains(w.github, GithubMarker)
    requires GetWorkspaceByUuid(st, w.uuid).id != 0
    ensures Rejection(st, env, caller, w, owner) == None
  {
  }

  /** A well-formed workspace stored under its own uuid, resubmitted unchanged by its
      owner, is written back as it is. */
  lemma ResubmitStored(st: Store, env: EditEnv, w: Workspace)
    requires GetWorkspaceByUuid(st, w.uuid) == w && w.id != 0 && WellFormed(w)
    requires w.ownerPubKey != "" && env.passesValidation(w) && !env.writeFails
    ensures CreateOrEditWorkspace(st, env, w.ownerPubKey, w) == Success(Saved(w, st))
  {
    assert Save(st, env, w.ownerPubKey, w, false) == Success(Saved(w, st)) by {
      assert w.(name := TrimSpace(w.name)) == w by { TrimSpaceFixpoint(w.name); }
      RejectionNone(st, env, w.ownerPubKey, w, w.ownerPubKey);
      assert Written(st, env, w) == w;
      assert st.(workspaces := st.workspaces[w.uuid := w]) == st;
    }
  }

  /** Saving a stored workspace again, by its owner and with the same outside answers, is
      accepted and leaves the store unchanged. */
  lemma SaveAgainIsNoOp(st: Store, env: EditEnv, caller: string, req: Workspace)
    requires CreateOrEditWorkspace(st, env, caller, req).Success?
    ensures var saved := CreateOrEditWorkspace(st, env, caller, req).value;
      var again := CreateOrEditWorkspace(saved.store, env, saved.workspace.ownerPubKey, saved.workspace);
      saved.workspace.id != 0 && saved.workspace.ownerPubKey != "" && env.passesValidation(saved.workspace) ==>
        again == Success(saved)
  {
    var saved := CreateOrEditWorkspace(st, env, caller, req).value;
    var w := saved.workspace;
    if w.id != 0 && w.ownerPubKey != "" && env.passesValidation(w) {
      assert !env.writeFails;
      ResubmitStored(saved.store, env, w);
    }
  }

  /** The ownership guard trusts the submission: an authenticated caller without EDIT
      ORGANIZATION who names themself as owner of a stored workspace owned by someone else
      has the edit accepted, and becomes its stored owner. */
  lemma OwnerClaimAccepted(st: Store, env: EditEnv, caller: string, uuid: string)
    requires uuid in st.workspaces && st.workspaces[uuid].uuid == uuid && st.workspaces[uuid].id != 0
    requires WellFormed(st.workspaces[uuid])
    requires caller != "" && caller != st.workspaces[uuid].ownerPubKey && !env.hasAccess(caller, uuid, EditOrg)
    requires env.passesValidation(st.workspaces[uuid].(ownerPubKey := caller)) && !env.writeFails
    ensures var r := CreateOrEditWorkspace(st, env, caller, st.workspaces[uuid].(ownerPubKey := caller));
      && r.Success?
      && r.value.store.workspaces[uuid].ownerPubKey == caller
  {
    var claim := st.workspaces[uuid].(ownerPubKey := caller);
    assert claim.(name := TrimSpace(claim.name)) == claim by { TrimSpaceFixpoint(claim.name); }
    assert GetWorkspaceByUuid(st, uuid).id != 0;
    RejectionNone(st, env, caller, claim, caller);
    assert Written(st, env, claim) == claim;
    assert Save(st, env, caller, claim, false) == Success(Saved(claim, st.(workspaces := st.workspaces[uuid := claim])));
  }

  /** The owner the corrected ownership guard compares the caller with: the stored owner
      of an existing workspace, the submitted one for a creation. */
  function CheckedOwner(st: Store, req: Workspace): string {
    if GetWorkspaceByUuid(st, req.uuid).id != 0 then GetWorkspaceByUuid(st, req.uuid).ownerPubKey
    else req.ownerPubKey
  }

  /** The same submission with the ownership guard judged by the stored owner. */
  function CreateOrEditWorkspaceOwnerChecked(st: Store, env: EditEnv, caller: string, req: Workspace)
    : (r: Result<Saved, EditRejection>)
    ensures r.Success? ==> WellFormed(r.value.workspace)
    // an existing workspace is edited only by its stored owner or an EDIT ORGANIZATION holder
    ensures r.Success? && GetWorkspaceByUuid(st, req.uuid).id != 0 ==>
      caller == GetWorkspaceByUuid(st, req.uuid).ownerPubKey || env.hasAccess(caller, req.uuid, EditOrg)
    // a new workspace is created only by the owner it names or an EDIT ORGANIZATION holder
    ensures r.Success? && GetWorkspaceByUuid(st, req.uuid).id == 0 ==>
      caller == req.ownerPubKey || env.hasAccess(caller, req.uuid, EditOrg)
    // it differs from the handler only where the submitted owner is not the stored one
    ensures GetWorkspaceByUuid(st, req.uuid).id == 0 || GetWorkspaceByUuid(st, req.uuid).ownerPubKey == req.ownerPubKey ==>
      r == CreateOrEditWorkspace(st, env, caller, req)
    // acceptance: every guard passes, with ownership judged by the stored owner of an
    // existing workspace, and the write succeeds
    ensures caller != "" ==>
      (r.Success? <==> Rejection(st, env, caller, TrimName(req), CheckedOwner(st, req)) == None && !env.writeFails)
    // the rejection is the first failing guard, else the failed write
    ensures caller != "" && Rejection(st, env, caller, TrimName(req), CheckedOwner(st, req)).Some? ==>
      r == Failure(Rejection(st, env, caller, TrimName(req), CheckedOwner(st, req)).value)
    ensures caller != "" && Rejection(st, env, caller, TrimName(req), CheckedOwner(st, req)) == None && env.writeFails ==>
      r == Failure(WriteFailed)
    // an accepted edit, an ownership transfer included, writes the trimmed submission
    ensures r.Success? && GetWorkspaceByUuid(st, req.uuid).id != 0 ==>
      && r.value.workspace == req.(name := TrimSpace(req.name))
      && r.value.store == st.(workspaces := st.workspaces[req.uuid := r.value.workspace])
  {
    Save(st, env, caller, req, true)
  }

  /** The submission that `OwnerClaimAccepted` lets through is refused once the stored
      owner is consulted. */
  lemma OwnerClaimRefusedWhenChecked(st: Store, env: EditEnv, caller: string, uuid: string)
    requires uuid in st.workspaces && st.workspaces[uuid].uuid == uuid && st.workspaces[uuid].id != 0
    requires WellFormed(st.workspaces[uuid])
    requires caller != "" && caller != st.workspaces[uuid].ownerPubKey && !env.hasAccess(caller, uuid, EditOrg)
    ensures CreateOrEditWorkspaceOwnerChecked(st, env, caller, st.workspaces[uuid].(ownerPubKey := caller))
      == Failure(NoEditAccess)
  {
    var stored := st.workspaces[uuid];
    var claim := stored.(ownerPubKey := caller);
    assert Rejection(st, env, caller, claim, stored.ownerPubKey) == Some(NoEditAccess) by {
      assert GetWorkspaceByUuid(st, uuid) == stored;
    }
    assert Save(st, env, caller, claim, true) == Failure(NoEditAccess) by {
      assert claim.(name := TrimSpace(claim.name)) == claim by { TrimSpaceFixpoint(claim.name); }
    }
  }
}
