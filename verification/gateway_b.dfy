/**
 The web front end of service B: a connection test and the user list, both
 relayed from the user service's `ListUsers` RPC (whose request is empty, so
 the handler's only input is the call's outcome).
 */
module GatewayB {
  import opened Wrappers
  import opened Users
  import opened Json
  import opened Rpc
  import opened UserJson
  import Decimal
  import Affix

  const SuccessPrefix: string := "✅ เชื่อมต่อ Service A สำเร็จ! พบ "
  const SuccessSuffix: string := " users"
  const ErrorPrefix: string := "❌ ไม่สามารถเชื่อมต่อ Service A: "

  /** The user count a success message of the connection test reports, if it has that form */
  function ReportedCount(message: string): Option<int> {
    match Affix.Strip(SuccessPrefix, SuccessSuffix, message)
    case Some(digits) => Decimal.Parse(digits)
    case None => None
  }

  /** A message reports n users exactly when it is the success text written for n */
  lemma ReportedCountExact(message: string, n: int)
    ensures ReportedCount(message) == Some(n) <==> message == SuccessPrefix + Decimal.Show(n) + SuccessSuffix
  {
    if message == SuccessPrefix + Decimal.Show(n) + SuccessSuffix {
      Affix.StripWrap(SuccessPrefix, Decimal.Show(n), SuccessSuffix);
      Decimal.ParseShow(n);
    }
    if ReportedCount(message) == Some(n) {
      Decimal.ShowParse(Affix.Strip(SuccessPrefix, SuccessSuffix, message).value, n);
    }
  }

  /**
   `GET /api/test`: status "success" with a message reporting how many users
   the call returned, or status "error" with a message carrying the failure.
   */
  function TestGrpc(listing: Outcome<seq<User>>): (r: Value)
    ensures Keys(r) == ["status", "message"]
    ensures StrAt(r, "status") == Some("success") || StrAt(r, "status") == Some("error")
    ensures StrAt(r, "status") == Some("success") <==> listing.Ok?
    ensures listing.Ok? ==> StrAt(r, "message").Some? && ReportedCount(StrAt(r, "message").value) == Some(|listing.value|)
    ensures !listing.Ok? ==> StrAt(r, "message") == Some(ErrorPrefix + listing.Message())
  {
    match listing
    case Ok(users) =>
      var m := SuccessPrefix + Decimal.Show(|users|) + SuccessSuffix;
      Affix.StripWrap(SuccessPrefix, Decimal.Show(|users|), SuccessSuffix);
      Decimal.ParseShow(|users|);
      assert |"status"| != |"message"|;
      TwoFields("status", Str("success"), "message", Str(m));
      Object([Field("status", Str("success")), Field("message", Str(m))])
    case _ =>
      assert |"status"| != |"message"|;
      TwoFields("status", Str("error"), "message", Str(ErrorPrefix + listing.Message()));
      Object([Field("status", Str("error")), Field("message", Str(ErrorPrefix + listing.Message()))])
  }

  /** `GET /api/users`: the same relay as service A's list handler */
  function ListUsers(listing: Outcome<seq<User>>): (r: Value)
    ensures ListedUsers(r) == Some(if listing.Ok? then listing.value else [])
    ensures Keys(r) == if listing.Ok? then ["users"] else ["users", "error"]
    ensures ItemsAreUserDicts(r)
    ensures !listing.Ok? ==> StrAt(r, "error") == Some(listing.Message())
  {
    ListReply(listing)
  }
}
