/** Receiving a message for a rule: the rule says whether the method has a body. */
module Serving {
  import opened Tries
  import opened Rules
  import opened Streams
  import opened HttpStream

  /** `RecvMsg` for the method that a rule binds. Without a body, in the rule or in the request,
      the first message is empty and nothing is read; otherwise it is read from the body. */
  method ReceiveFor(s: StreamHTTP, rule: HttpRule, desc: Desc, name: string, requestBody: bool, c: Codec, cap: nat,
                    decodes: Bytes -> bool)
    returns (m: Received, params: bool, ghost raw: Received)
    requires Target(rule, desc).Some? && MethodFor(rule, desc, name).Built? && |s.rbuf| <= cap
    modifies s`rbuf, s`rEOF, s`recvCount, s`delivered, s.r
    ensures params <==> m.Message? && old(s.recvCount) == 0
    ensures old(s.rEOF) ==> m.Fails? && m.err == EndOfFile
    ensures !old(s.rEOF) && (rule.body == "" || !requestBody) ==>
      m == Message(old(s.recvCount), []) && s.rEOF && s.Pending() == old(s.Pending())
    ensures !old(s.rEOF) && rule.body != "" && requestBody ==>
      && m == Unmarshalled(raw, decodes)
      && (!s.streamingClient ==> UnaryResult(old(s.r.rest), s.r.end, s.limit, old(s.recvCount), raw, s.rEOF))
      && (s.streamingClient && c == Proto ==>
            ProtoResult(old(s.Pending()), s.r.end, s.limit, old(s.recvCount), raw, s.Pending(), s.rEOF))
      && (s.streamingClient && c == JSON ==>
            JsonResult(old(s.Pending()), s.r.end, s.limit, old(s.recvCount), raw, s.Pending(), s.rEOF))
  {
    hide ProtoResult, JsonResult, UnaryResult, Target, MethodFor;
    HasBody(rule, desc, name);
    m, params, raw := s.RecvMsg(c, cap, MethodFor(rule, desc, name).m.hasBody && requestBody, decodes);
  }

  /** The method of a rule has a body exactly when the rule names one. */
  lemma {:induction false} HasBody(rule: HttpRule, desc: Desc, name: string)
    requires Target(rule, desc).Some? && MethodFor(rule, desc, name).Built?
    ensures MethodFor(rule, desc, name).m.hasBody <==> rule.body != ""
  {
    hide Target, MethodFor;
    if rule.body == "" || rule.body == "*" {
      BodyWhole(rule, desc, name);
    } else {
      DottedSplit(rule.body);
      BodyField(rule, Split(rule.body), desc, name);
    }
  }
}
