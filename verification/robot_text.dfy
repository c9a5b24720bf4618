/**
 The texts on the robot's side: the command that `on_cmd` reads from a message, and the result it prints.
 */
module RobotText {
  import opened Wrappers
  import opened RobotState
  import opened JsonText
  import opened Envelope
  import opened Decimals

  // ----- reading -----

  function ExtractBool(obj: string, key: string): Option<bool> {
    var i := ValueStart(obj, key);
    if i < 0 then None
    else if MatchAt(obj, "true", i) then Some(true)
    else if MatchAt(obj, "false", i) then Some(false)
    else None
  }

  function StringOr(obj: string, key: string, otherwise: string): string {
    var r := ExtractString(obj, key);
    if r.Some? then r.value else otherwise
  }

  function ModeOf(name: Option<string>): Option<Mode> {
    if name == Some("TELEOP") then Some(Teleop)
    else if name == Some("AUTO") then Some(Auto)
    else if name == Some("REMOTE") then Some(Remote)
    else None
  }

  function TaskFor(kind: string, id: string, x: Option<real>, y: Option<real>): Command {
    match kind
    case "pause" => PauseCmd(id)
    case "cancel" => CancelCmd
    case "goto" => GotoCmd(id, x, y)
    case "resume" => ResumeCmd(id)
    case _ => OtherTaskCmd(id)
  }

  function TaskOf(data: string): Command {
    TaskFor(StringOr(data, "type", ""), StringOr(data, "task_id", ""),
            ExtractNumber(data, "x"), ExtractNumber(data, "y"))
  }

  /** The command named `cmd`, with the keys it needs searched in the whole message. */
  function CommandOf(data: string, cmd: string): Command {
    match cmd
    case "CMD_ESTART" => EstopCmd
    case "CMD_ESTOP" => EstopCmd
    case "CMD_RESET" => ResetCmd(ExtractBool(data, "confirm") == Some(true))
    case "CMD_MODE" => ModeCmd(ModeOf(ExtractString(data, "mode")))
    case "CMD_TASK" => TaskOf(data)
    case "INJECT_FAULT" => InjectCmd(StringOr(data, "detail", "injected by operator"))
    case "CMD_INJECT_FAULT" => InjectCmd(StringOr(data, "detail", "injected by operator"))
    case "CLEAR_FAULT" => ClearCmd
    case "CMD_CLEAR_FAULT" => ClearCmd
    case _ => UnknownCmd
  }

  // ----- printing -----

  function StatusText(s: Status): string {
    match s
    case AcceptedReply => "ACCEPTED"
    case RejectedReply => "REJECTED"
    case DoneReply => "DONE"
  }

  function ReasonText(r: Reason): string {
    match r
    case NoReason => ""
    case ConfirmRequired => "confirm_required"
    case PhaseBusy => "phase_busy"
    case EstopReason => "estop_active"
    case InvalidPayload => "invalid_payload"
    case UnknownTask => "unknown_task"
    case NotImplemented => "not_implemented"
  }

  /** Either spelling of ESTOP is answered under its proper name. */
  function EchoedName(cmd: string): string {
    if cmd == "CMD_ESTART" then "CMD_ESTOP" else cmd
  }

  function ReplyText(n: nat, cmd: string, reply: Reply): string {
    ResultText(n, reply.ok, EchoedName(cmd), StatusText(reply.status), ReasonText(reply.reason), reply.id)
  }

  /** What the bridge reads from a printed reply, whatever the reply: its number. */
  lemma ReplyNumber(n: nat, cmd: string, reply: Reply)
    requires n < 65536
    ensures GetInt(ReplyText(n, cmd, reply), "seq") == n
  {
    ResultReadBack(n, reply.ok, EchoedName(cmd), StatusText(reply.status), ReasonText(reply.reason), reply.id);
  }

  /** A bridge envelope with a plain command name is answered once, and the bridge reads its own number in
      the answer, whatever the robot makes of the payload. */
  lemma EnvelopeAnswered(n: nat, cmd: string, payload: string, reply: Reply)
    requires n < 65536 && NoControls(cmd)
    ensures var data := CommandText(n, cmd, payload);
            && ExtractString(data, "cmd") == Some(cmd)
            && ExtractSeq(data) >= 0 && GetInt(ReplyText(ExtractSeq(data), cmd, reply), "seq") == n
  {
    EnvelopeReadBack(n, cmd, payload);
    ReplyNumber(n, cmd, reply);
  }

  /** The words of the protocol: the status of a reply, and the reason of a refusal. */
  predicate InWords(reply: Reply, status: string, reason: string) {
    && (reply.status == AcceptedReply <==> status == "ACCEPTED")
    && (reply.status == RejectedReply <==> status == "REJECTED")
    && (reply.status == DoneReply <==> status == "DONE")
    && (reply.reason == NoReason <==> reason == "")
    && (reply.reason == ConfirmRequired <==> reason == "confirm_required")
    && (reply.reason == PhaseBusy <==> reason == "phase_busy")
    && (reply.reason == EstopReason <==> reason == "estop_active")
    && (reply.reason == InvalidPayload <==> reason == "invalid_payload")
    && (reply.reason == UnknownTask <==> reason == "unknown_task")
    && (reply.reason == NotImplemented <==> reason == "not_implemented")
  }

  /** The text of a reply, with null for an empty reason or task id. */
  lemma ReplyReads(n: nat, cmd: string, reply: Reply) returns (status: string, reason: string)
    ensures InWords(reply, status, reason)
    ensures ReplyText(n, cmd, reply) ==
            "{\"seq\":" + Decimal(n) + "," +
            ("\"ok\":" + (if reply.ok then "true" else "false") +
             ",\"cmd\":\"" + Esc(if cmd == "CMD_ESTART" then "CMD_ESTOP" else cmd) +
             "\",\"status\":\"" + Esc(status) +
             "\",\"reason\":" + (if reason == "" then "null" else "\"" + Esc(reason) + "\"") +
             ",\"task_id\":" + (if reply.id == "" then "null" else "\"" + Esc(reply.id) + "\"") + "}")
  {
    status, reason := StatusText(reply.status), ReasonText(reply.reason);
  }

  /** Every command by its names; a name that is none of these is not implemented. */
  lemma CommandNames(data: string)
    ensures CommandOf(data, "CMD_ESTOP") == EstopCmd && CommandOf(data, "CMD_ESTART") == EstopCmd
    ensures CommandOf(data, "CMD_RESET") == ResetCmd(ExtractBool(data, "confirm") == Some(true))
    ensures CommandOf(data, "CLEAR_FAULT") == ClearCmd && CommandOf(data, "CMD_CLEAR_FAULT") == ClearCmd
    ensures CommandOf(data, "INJECT_FAULT") == CommandOf(data, "CMD_INJECT_FAULT")
    ensures CommandOf(data, "INJECT_FAULT") ==
            InjectCmd(if ExtractString(data, "detail").Some? then ExtractString(data, "detail").value
                      else "injected by operator")
    ensures CommandOf(data, "CMD_MODE") ==
            ModeCmd(match ExtractString(data, "mode")
                    case None => None
                    case Some(m) =>
                      if m == "TELEOP" then Some(Teleop) else if m == "AUTO" then Some(Auto)
                      else if m == "REMOTE" then Some(Remote) else None)
  {
  }

  lemma TaskVerbs(id: string, x: Option<real>, y: Option<real>, kind: string)
    ensures TaskFor("pause", id, x, y) == PauseCmd(id) && TaskFor("cancel", id, x, y) == CancelCmd
    ensures TaskFor("resume", id, x, y) == ResumeCmd(id) && TaskFor("goto", id, x, y) == GotoCmd(id, x, y)
    ensures kind !in {"pause", "cancel", "resume", "goto"} ==> TaskFor(kind, id, x, y) == OtherTaskCmd(id)
  {
  }
}
