/**
 * The administration page's local logic: who may stay on it, the status filter
 * and per-status counts over the purchase list, and the checks on the approve and
 * reject forms that run before any request is made.
 */
module Admin {
  import opened Text
  import opened Outcomes
  import opened Cookies

  /** `getCookie(name) || fallback`: a missing or empty value gives the fallback. */
  function OrDefault(v: Option<string>, fallback: string): (r: string)
    ensures v.Some? && v.value != "" ==> r == v.value
    ensures v.None? || v.value == "" ==> r == fallback
  {
    if v.Some? && v.value != "" then v.value else fallback
  }

  /** The role the page acts on: the `userRole` cookie, or "user" when it is missing or empty. */
  function UserRole(cookie: string, decode: Decoder): (role: string)
    ensures role != ""
    ensures role == "user" || GetCookie(cookie, "userRole", decode) == Some(role)
    ensures GetCookie(cookie, "userRole", decode).None? || GetCookie(cookie, "userRole", decode) == Some("") ==> role == "user"
    ensures GetCookie(cookie, "userRole", decode).Some? && GetCookie(cookie, "userRole", decode).value != "" ==>
              role == GetCookie(cookie, "userRole", decode).value
  {
    OrDefault(GetCookie(cookie, "userRole", decode), "user")
  }

  /** The name recorded on approvals and rejections: the `currentUsername` cookie, or "Admin". */
  function ActingUser(cookie: string, decode: Decoder): (name: string)
    ensures name != ""
    ensures name == "Admin" || GetCookie(cookie, "currentUsername", decode) == Some(name)
    ensures GetCookie(cookie, "currentUsername", decode).None? || GetCookie(cookie, "currentUsername", decode) == Some("") ==> name == "Admin"
    ensures GetCookie(cookie, "currentUsername", decode).Some? && GetCookie(cookie, "currentUsername", decode).value != "" ==>
              name == GetCookie(cookie, "currentUsername", decode).value
  {
    OrDefault(GetCookie(cookie, "currentUsername", decode), "Admin")
  }

  datatype RoleCheck = Allowed | SentTo(path: string)

  /** The role effect: anyone but an admin or a seller is sent to the home path. */
  function RoleGuard(role: string): (r: RoleCheck)
    ensures r == Allowed <==> role == "admin" || role == "seller"
    ensures r != Allowed ==> r == SentTo("/index")
  {
    if role != "admin" && role != "seller" then SentTo("/index") else Allowed
  }

  /** The role effect on the session's cookies: only an `admin` or `seller` role cookie keeps the page. */
  function RoleEffect(cookie: string, decode: Decoder): (r: RoleCheck)
    ensures r == Allowed <==>
              GetCookie(cookie, "userRole", decode) == Some("admin") || GetCookie(cookie, "userRole", decode) == Some("seller")
    ensures r != Allowed ==> r == SentTo("/index")
  {
    RoleGuard(UserRole(cookie, decode))
  }

  /** A session with no role cookie, or an empty one, acts as "user" and is sent away. */
  lemma MissingRoleIsSentAway(role: Option<string>)
    requires role.None? || role.value == ""
    ensures OrDefault(role, "user") == "user"
    ensures RoleGuard(OrDefault(role, "user")) == SentTo("/index")
  {
  }

  datatype Purchase = Purchase(id: string, status: string)

  /** How many purchases have the given status (`filter(p => p.status === s).length`). */
  function CountStatus(ps: seq<Purchase>, s: string): (n: nat)
    ensures n <= |ps|
  {
    if |ps| == 0 then 0 else (if ps[0].status == s then 1 else 0) + CountStatus(ps[1..], s)
  }

  /** `xs` is `ys` with some elements removed, the rest in their original order. */
  predicate Subsequence(xs: seq<Purchase>, ys: seq<Purchase>)
    decreases |ys|
  {
    if xs == [] then true
    else if ys == [] then false
    else if xs[0] == ys[0] then Subsequence(xs[1..], ys[1..])
    else Subsequence(xs, ys[1..])
  }

  /** `filteredPurchases`: all of them for "all", otherwise those whose status is the filter. */
  function FilterPurchases(ps: seq<Purchase>, filter: string): (r: seq<Purchase>)
    ensures filter == "all" ==> r == ps
    ensures filter != "all" ==> forall i :: 0 <= i < |r| ==> r[i].status == filter
    ensures filter != "all" ==> forall p: Purchase :: p.status == filter ==> multiset(r)[p] == multiset(ps)[p]
    ensures filter != "all" ==> |r| == CountStatus(ps, filter)
    ensures Subsequence(r, ps)
  {
    if filter == "all" then
      SubsequenceRefl(ps);
      ps
    else KeepStatus(ps, filter)
  }

  lemma {:induction false} SubsequenceRefl(ps: seq<Purchase>)
    ensures Subsequence(ps, ps)
    decreases |ps|
  {
    if ps != [] {
      SubsequenceRefl(ps[1..]);
    }
  }

  /** The filter's callback `p.status === filter`, applied left to right. */
  function KeepStatus(ps: seq<Purchase>, s: string): (r: seq<Purchase>)
    ensures forall i :: 0 <= i < |r| ==> r[i].status == s
    ensures forall p: Purchase :: p.status == s ==> multiset(r)[p] == multiset(ps)[p]
    ensures |r| == CountStatus(ps, s)
    ensures Subsequence(r, ps)
  {
    if |ps| == 0 then []
    else
      var rest := KeepStatus(ps[1..], s);
      assert ps == [ps[0]] + ps[1..];
      assert multiset(ps) == multiset([ps[0]]) + multiset(ps[1..]);
      if ps[0].status == s then
        assert ([ps[0]] + rest)[1..] == rest;
        [ps[0]] + rest
      else
        SkipKeepsSubsequence(rest, ps);
        rest
  }

  lemma SkipKeepsSubsequence(xs: seq<Purchase>, ys: seq<Purchase>)
    requires |ys| > 0 && Subsequence(xs, ys[1..])
    requires forall i :: 0 <= i < |xs| ==> xs[i] != ys[0]
    ensures Subsequence(xs, ys)
  {
  }

  /** The three status tabs never count more purchases than the "all" tab. */
  lemma {:induction false} TabCountsWithinTotal(ps: seq<Purchase>)
    ensures CountStatus(ps, "pending") + CountStatus(ps, "approved") + CountStatus(ps, "rejected") <= |ps|
  {
    if |ps| > 0 {
      TabCountsWithinTotal(ps[1..]);
    }
  }

  predicate KnownStatus(p: Purchase) {
    p.status == "pending" || p.status == "approved" || p.status == "rejected"
  }

  /** When every purchase has one of the three statuses, the tabs add up to the total. */
  lemma {:induction false} TabCountsCoverKnownStatuses(ps: seq<Purchase>)
    requires forall i :: 0 <= i < |ps| ==> KnownStatus(ps[i])
    ensures CountStatus(ps, "pending") + CountStatus(ps, "approved") + CountStatus(ps, "rejected") == |ps|
  {
    if |ps| > 0 {
      assert KnownStatus(ps[0]);
      TabCountsCoverKnownStatuses(ps[1..]);
    }
  }

  /** The account handed to the buyer with an approval. */
  datatype AccountData = AccountData(email: string, password: string)

  datatype ApproveRequest = ApproveRequest(purchaseId: string, accountEmail: string, accountPassword: string, approvedBy: string)

  /** The check at the top of `handleApprove`; `None` is the alert with no request. */
  function ApproveCheck(purchaseId: string, account: AccountData, actingUser: string): (r: Option<ApproveRequest>)
    ensures r.None? <==> account.email == "" || account.password == ""
    ensures r.Some? ==> r.value.accountEmail == account.email && r.value.accountPassword == account.password
    ensures r.Some? ==> r.value.purchaseId == purchaseId && r.value.approvedBy == actingUser
  {
    if account.email == "" || account.password == "" then None
    else Some(ApproveRequest(purchaseId, account.email, account.password, actingUser))
  }

  datatype RejectRequest = RejectRequest(purchaseId: string, reason: string, rejectedBy: string)

  /**
   * The check at the top of `handleReject`: a reason of only whitespace is refused; an
   * accepted reason is sent as typed, not trimmed.
   */
  function RejectCheck(purchaseId: string, reason: string, actingUser: string): (r: Option<RejectRequest>)
    ensures r.None? <==> AllWhitespace(reason)
    ensures r.Some? ==> r.value == RejectRequest(purchaseId, reason, actingUser)
  {
    if Trim(reason) == "" then None
    else Some(RejectRequest(purchaseId, reason, actingUser))
  }

  /** `handleApprove` up to its request: the check, with the session's acting user as `approvedBy`. */
  function HandleApprove(cookie: string, decode: Decoder, purchaseId: string, account: AccountData): (r: Option<ApproveRequest>)
    ensures r.None? <==> account.email == "" || account.password == ""
    ensures r.Some? ==> r.value.approvedBy != ""
    ensures r.Some? ==> r.value.approvedBy == "Admin" || GetCookie(cookie, "currentUsername", decode) == Some(r.value.approvedBy)
    ensures r.Some? && GetCookie(cookie, "currentUsername", decode).Some? && GetCookie(cookie, "currentUsername", decode).value != "" ==>
              r.value.approvedBy == GetCookie(cookie, "currentUsername", decode).value
    ensures r.Some? && (GetCookie(cookie, "currentUsername", decode).None? || GetCookie(cookie, "currentUsername", decode) == Some("")) ==>
              r.value.approvedBy == "Admin"
  {
    ApproveCheck(purchaseId, account, ActingUser(cookie, decode))
  }

  /** `handleReject` up to its request: the check, with the session's acting user as `rejectedBy`. */
  function HandleReject(cookie: string, decode: Decoder, purchaseId: string, reason: string): (r: Option<RejectRequest>)
    ensures r.None? <==> AllWhitespace(reason)
    ensures r.Some? ==> r.value.reason == reason && r.value.rejectedBy != ""
    ensures r.Some? ==> r.value.rejectedBy == "Admin" || GetCookie(cookie, "currentUsername", decode) == Some(r.value.rejectedBy)
    ensures r.Some? && GetCookie(cookie, "currentUsername", decode).Some? && GetCookie(cookie, "currentUsername", decode).value != "" ==>
              r.value.rejectedBy == GetCookie(cookie, "currentUsername", decode).value
    ensures r.Some? && (GetCookie(cookie, "currentUsername", decode).None? || GetCookie(cookie, "currentUsername", decode) == Some("")) ==>
              r.value.rejectedBy == "Admin"
  {
    RejectCheck(purchaseId, reason, ActingUser(cookie, decode))
  }
}
