/** What reaches the host: one `PerformScript` call per field change, each
    carrying a structured message. The call happens only when the host
    bridge object exists; otherwise the notification goes nowhere. */
module HostBridge {
  import opened Values
  import opened Page

  /** The host script every notification invokes. */
  const Script: string := "Manage: PO Lines"

  /** The fixed `mode` of every message. */
  const Mode: string := "updatePO"

  /** A field change to report: `(fieldName, value)`. */
  datatype Change = Change(field: Field, value: Value)

  /** The parameter object of a notification (serialised to JSON by the script). */
  datatype Message = Message(mode: string, fieldName: string, value: Value)

  /** One invocation of the host's `PerformScript`. */
  datatype HostCall = PerformScript(script: string, parameter: Message)

  /** The call that reports change `c`. */
  function CallFor(c: Change): HostCall {
    PerformScript(Script, Message(Mode, FieldName(c.field), c.value))
  }

  /** The calls the host receives when the changes `cs` are reported in
      order: one per change, in the same order, or none at all when there
      is no host bridge. */
  function Sent(bridge: bool, cs: seq<Change>): (r: seq<HostCall>)
    ensures bridge ==> |r| == |cs|
    ensures bridge ==> forall i :: 0 <= i < |cs| ==> r[i] == PerformScript(Script, Message(Mode, FieldName(cs[i].field), cs[i].value))
    ensures !bridge ==> r == []
  {
    if !bridge || cs == [] then [] else [CallFor(cs[0])] + Sent(bridge, cs[1..])
  }

  /** Reporting two batches one after the other sends what reporting them
      together sends. */
  lemma SentAppend(bridge: bool, a: seq<Change>, b: seq<Change>)
    ensures Sent(bridge, a + b) == Sent(bridge, a) + Sent(bridge, b)
  {
    if bridge {
      var l, r := Sent(bridge, a + b), Sent(bridge, a) + Sent(bridge, b);
      assert |l| == |r|;
      forall i | 0 <= i < |l|
        ensures l[i] == r[i]
      {
        if i < |a| {
          assert (a + b)[i] == a[i];
        } else {
          assert (a + b)[i] == b[i - |a|];
        }
      }
    }
  }

  /** A log of the calls for `done` grows by the call for `c` into the log
      of the calls for `done + [c]`. */
  lemma SentExtend(log0: seq<HostCall>, bridge: bool, done: seq<Change>, c: Change)
    ensures (log0 + Sent(bridge, done)) + Sent(bridge, [c]) == log0 + Sent(bridge, done + [c])
  {
    SentAppend(bridge, done, [c]);
    assert (log0 + Sent(bridge, done)) + Sent(bridge, [c]) == log0 + (Sent(bridge, done) + Sent(bridge, [c]));
  }

  /** Every call in the log invokes the update script in update mode. */
  predicate Wired(log: seq<HostCall>) {
    forall k :: 0 <= k < |log| ==> log[k].script == Script && log[k].parameter.mode == Mode
  }

  /** Reporting changes keeps the log wired to the update script. */
  lemma SentWired(log: seq<HostCall>, bridge: bool, cs: seq<Change>)
    requires Wired(log)
    ensures Wired(log + Sent(bridge, cs))
  {
  }
}
