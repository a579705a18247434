/** The share dialog (frontend/src/components/tasks/TaskSharing.tsx): the list of this task's shares and the
    create and revoke handlers. Request outcomes are parameters. */
module Sharing {
  import opened Types
  import Seqs

  function ForTask(taskId: int): TaskShare -> bool {
    (share: TaskShare) => share.task.id == taskId
  }

  function ShareIdIsNot(shareId: int): TaskShare -> bool {
    (share: TaskShare) => share.id != shareId
  }

  /** The body of a share creation request (CreateTaskShareData). */
  datatype CreateShareData = CreateShareData(shareType: ShareType, expiresAt: Option<string>)

  /** `{ shareType, expiresAt: expiresAt || undefined }`: an empty expiry is not sent at all. */
  function ShareData(shareType: ShareType, expiresAt: string): (d: CreateShareData)
    ensures d.shareType == shareType
    ensures d.expiresAt.None? <==> expiresAt == ""
    ensures d.expiresAt.Some? ==> d.expiresAt.value == expiresAt
  {
    CreateShareData(shareType, if expiresAt == "" then None else Some(expiresAt))
  }

  /** The shares of task `taskId` among all the user's shares, in the order the server sent them. */
  function SharesOf(all: seq<TaskShare>, taskId: int): (r: seq<TaskShare>)
    ensures forall s :: s in r <==> s in all && s.task.id == taskId
  {
    Seqs.Filter(all, ForTask(taskId))
  }

  /** `prev.filter(share => share.id !== shareId)` */
  function WithoutShare(shares: seq<TaskShare>, shareId: int): (r: seq<TaskShare>)
    ensures forall i :: 0 <= i < |r| ==> r[i].id != shareId
    ensures forall s :: s in r <==> s in shares && s.id != shareId
  {
    var r := Seqs.Filter(shares, ShareIdIsNot(shareId));
    assert forall i :: 0 <= i < |r| ==> r[i] in r;
    r
  }

  /** Revoking keeps the other shares in their order: it distributes over concatenation. */
  lemma WithoutShareKeepsOrder(a: seq<TaskShare>, b: seq<TaskShare>, shareId: int)
    ensures WithoutShare(a + b, shareId) == WithoutShare(a, shareId) + WithoutShare(b, shareId)
  {
    Seqs.FilterConcat(a, b, ShareIdIsNot(shareId));
  }

  /** Creating a share and then revoking it restores the list, when no listed share had its id. */
  lemma {:induction false} CreateThenRevokeRestores(shares: seq<TaskShare>, created: TaskShare)
    requires forall i :: 0 <= i < |shares| ==> shares[i].id != created.id
    ensures WithoutShare([created] + shares, created.id) == shares
  {
    WithoutShareKeepsOrder([created], shares, created.id);
    Seqs.FilterKeepsAll(shares, ShareIdIsNot(created.id));
  }

  class ShareDialog {
    const taskId: int
    var shares: seq<TaskShare>
    var loading: bool
    var shareType: ShareType
    var sharedWithEmail: string
    var expiresAt: string

    constructor (task: Task)
      ensures taskId == task.id && shares == [] && !loading
      ensures shareType == PublicLink && sharedWithEmail == "" && expiresAt == ""
    {
      taskId := task.id;
      shares, loading := [], false;
      shareType, sharedWithEmail, expiresAt := PublicLink, "", "";
    }

    /** `loadShares`: keeps exactly the fetched shares of this task; a failure changes nothing. */
    method LoadShares(response: Response<seq<TaskShare>>)
      modifies this
      ensures response.Ok? ==> shares == SharesOf(response.body, taskId)
      ensures response.Failed? ==> shares == old(shares)
      ensures loading == old(loading) && shareType == old(shareType)
      ensures sharedWithEmail == old(sharedWithEmail) && expiresAt == old(expiresAt)
    {
      if response.Ok? {
        shares := Seqs.Filter(response.body, ForTask(taskId));
      }
    }

    /** `handleCreateShare`: a user share is refused before any request; a public link is requested, and a
        created share goes to the front while the form's expiry and e-mail are cleared. */
    method HandleCreateShare(response: Response<TaskShare>) returns (sent: Option<CreateShareData>)
      modifies this
      ensures old(shareType) == UserShare ==> sent == None
      ensures old(shareType) == PublicLink ==> sent == Some(ShareData(PublicLink, old(expiresAt)))
      ensures shares == (if old(shareType) == PublicLink && response.Ok? then [response.body] + old(shares) else old(shares))
      ensures old(shareType) == PublicLink && response.Ok? ==> expiresAt == "" && sharedWithEmail == ""
      ensures !(old(shareType) == PublicLink && response.Ok?) ==>
        expiresAt == old(expiresAt) && sharedWithEmail == old(sharedWithEmail)
      ensures !loading && shareType == old(shareType)
    {
      loading := true;
      var shareData := ShareData(shareType, expiresAt);
      if shareType == UserShare {
        loading := false;
        return None;
      }
      sent := Some(shareData);
      if response.Ok? {
        shares := [response.body] + shares;
        expiresAt := "";
        sharedWithEmail := "";
      }
      loading := false;
    }

    /** `handleRevokeShare`: a successful revoke drops exactly the shares with that id; a failure changes nothing. */
    method HandleRevokeShare(shareId: int, response: Response<()>)
      modifies this
      ensures shares == (if response.Ok? then WithoutShare(old(shares), shareId) else old(shares))
      ensures loading == old(loading) && shareType == old(shareType)
      ensures sharedWithEmail == old(sharedWithEmail) && expiresAt == old(expiresAt)
    {
      if response.Ok? {
        shares := WithoutShare(shares, shareId);
      }
    }
  }
}
