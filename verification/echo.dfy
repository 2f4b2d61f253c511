/**
 The echo service `ServiceCHandler.GetData`: a stateless handler that wraps the
 request's name in a fixed Thai greeting and a fixed service signature.
 */
module Echo {
  import opened Wrappers
  import Affix

  datatype RequestMsg = RequestMsg(name: string)

  datatype ReplyMsg = ReplyMsg(message: string)

  const Greeting: string := "สวัสดี "
  const Signature: string := ", นี่คือข้อมูลจาก Server C (gRPC System)"

  /** `t` occurs in `s` starting at position i */
  predicate OccursAt(s: string, t: string, i: int) {
    0 <= i <= |s| - |t| && s[i..i + |t|] == t
  }

  /** `t` occurs in `s` as a contiguous piece: Python's `t in s` */
  predicate Contains(s: string, t: string) {
    exists i :: 0 <= i <= |s| - |t| && OccursAt(s, t, i)
  }

  /** The name a reply message was made from, if it has the greeting's form */
  function NameOf(message: string): (r: Option<string>)
    ensures r.Some? ==> Greeting + r.value + Signature == message
  {
    Affix.Strip(Greeting, Signature, message)
  }

  /**
   `GetData`: answers every name, the empty one included, with the greeting,
   the name, and the signature; the name can be read back from the message.
   */
  function GetData(req: RequestMsg): (r: ReplyMsg)
    ensures NameOf(r.message) == Some(req.name)
    ensures Contains(r.message, req.name)
  {
    var m := Greeting + req.name + Signature;
    Affix.StripWrap(Greeting, req.name, Signature);
    assert OccursAt(m, req.name, |Greeting|);
    ReplyMsg(m)
  }

  /** Distinct names give distinct messages */
  lemma GetDataInjective(a: RequestMsg, b: RequestMsg)
    requires GetData(a) == GetData(b)
    ensures a == b
  {
  }
}
