/** The reply logic of server/tools/email_reply.py: the arguments it
    insists on, who the reply goes to, the "Re: " subject rule and the body
    that quotes the original. The mailbox and the SMTP client are inputs:
    a fetch of the messages with a UID, and a send that reports success or
    a message; either may raise, which is an `Err` carrying the message. */
module EmailReply {
  import opened Wrappers
  import opened Strings

  /** The fields of the original message the reply uses; `date` is the
      message date already formatted as `%Y-%m-%d %H:%M:%S`, when it has one.
      Text fields are "" when the message lacks them. */
  datatype Message = Message(sender: string, cc: seq<string>, subject: string,
                             date: Option<string>, text: string, html: string)

  /** What `send_email` is asked to send. */
  datatype Outgoing = Outgoing(to: seq<string>, subject: string, body: string,
                               cc: Option<seq<string>>, html: bool)

  /** What `send_email` reports. */
  datatype SendResult = SendResult(success: bool, message: string)

  /** `mailbox.fetch('UID <uid>')` in a folder of an account. */
  type Fetch = (string, string, string) -> Result<seq<Message>, string>

  /** `client.send_email(...)` for an account. */
  type Send = (string, Outgoing) -> Result<SendResult, string>

  const NoSubject: string := "(No Subject)"

  /** `original.subject or "(No Subject)"` */
  function BaseSubject(subject: string): (r: string)
    ensures r != ""
    ensures subject != "" ==> r == subject
  {
    if subject != "" then subject else NoSubject
  }

  predicate IsReply(subject: string) {
    StartsWith(Lower(subject), "re:")
  }

  /** The reply subject: "Re: " in front unless the subject already starts
      with "re:" in any case. */
  function ReplySubject(subject: string): (r: string)
    ensures IsReply(r)
    ensures EndsWith(r, subject)
    ensures IsReply(subject) <==> r == subject
    ensures !IsReply(subject) ==> r == "Re: " + subject
  {
    if IsReply(subject) then subject
    else
      var r := "Re: " + subject;
      assert Lower(r)[..3] == "re:";
      assert r[|r| - |subject|..] == subject;
      r
  }

  /** Prefixing is idempotent: the subject of a reply to the reply is the
      same. */
  lemma ReplySubjectIdempotent(subject: string)
    ensures ReplySubject(ReplySubject(subject)) == ReplySubject(subject)
  {
  }

  /** The subject a reply to `original` carries. */
  function Subject(original: Message): (r: string)
    ensures IsReply(r)
    ensures original.subject == "" ==> r == "Re: " + NoSubject
    ensures original.subject != "" && !IsReply(original.subject) ==> r == "Re: " + original.subject
    ensures original.subject != "" && IsReply(original.subject) ==> r == original.subject
  {
    assert !IsReply(NoSubject) by { assert Lower(NoSubject)[0] == '('; }
    ReplySubject(BaseSubject(original.subject))
  }

  /** Reply to the sender; copy the original's CC only for reply-all. */
  function Recipients(original: Message, replyAll: bool): (r: (seq<string>, Option<seq<string>>))
    ensures r.0 == [original.sender]
    ensures r.1.Some? <==> replyAll && original.cc != []
    ensures r.1.Some? ==> r.1.value == original.cc
  {
    ([original.sender], if replyAll && original.cc != [] then Some(original.cc) else None)
  }

  /** Each line with "> " in front. */
  function QuotedLines(lines: seq<string>): (r: seq<string>)
    ensures |r| == |lines|
    ensures forall k :: 0 <= k < |lines| ==> r[k] == "> " + lines[k]
  {
    seq(|lines|, k requires 0 <= k < |lines| => "> " + lines[k])
  }

  /** The plain-text quote of the original text:
      `"> " + "\n> ".join(text.split("\n"))`. */
  function Quote(text: string): (r: string)
    ensures StartsWith(r, "> ")
  {
    var r := "> " + Join(Split(text, "\n"), "\n> ");
    assert r[..2] == "> ";
    r
  }

  /** Joining on "\n> " after a leading "> " quotes every line. */
  lemma {:induction false} QuoteIsJoinOfQuoted(lines: seq<string>)
    requires |lines| >= 1
    ensures "> " + Join(lines, "\n> ") == Join(QuotedLines(lines), "\n")
    decreases |lines|
  {
    if |lines| > 1 {
      QuoteIsJoinOfQuoted(lines[1..]);
      assert QuotedLines(lines)[1..] == QuotedLines(lines[1..]);
      JoinCons(QuotedLines(lines)[0], QuotedLines(lines)[1..], "\n");
      assert [QuotedLines(lines)[0]] + QuotedLines(lines)[1..] == QuotedLines(lines);
    }
  }

  /** The quote has one line per line of the original, each the original
      line with "> " in front. */
  lemma QuoteLines(text: string)
    ensures Split(Quote(text), "\n") == QuotedLines(Split(text, "\n"))
  {
    var lines := Split(text, "\n");
    QuoteIsJoinOfQuoted(lines);
    SplitPiecesLack(text, '\n');
    forall k | 0 <= k < |QuotedLines(lines)|
      ensures '\n' !in QuotedLines(lines)[k]
    {
      assert QuotedLines(lines)[k] == "> " + lines[k];
    }
    SplitJoin(QuotedLines(lines), '\n');
  }

  /** Removes the quoting: every line loses its first two characters. */
  function Unquote(quote: string): string {
    var lines := Split(quote, "\n");
    Join(seq(|lines|, k requires 0 <= k < |lines| => if |lines[k]| >= 2 then lines[k][2..] else lines[k]), "\n")
  }

  /** Quoting loses nothing: unquoting gives the original text back. */
  lemma QuoteRoundTrip(text: string)
    ensures Unquote(Quote(text)) == text
  {
    QuoteLines(text);
    var lines := Split(text, "\n");
    var quoted := Split(Quote(text), "\n");
    var back := seq(|quoted|, k requires 0 <= k < |quoted| => if |quoted[k]| >= 2 then quoted[k][2..] else quoted[k]);
    assert back == lines by {
      forall k | 0 <= k < |lines|
        ensures back[k] == lines[k]
      {
        assert quoted[k] == "> " + lines[k];
      }
    }
    JoinSplit(text, "\n");
  }

  /** The attribution line's date: the formatted date, or "Unknown". */
  function DateText(original: Message): string {
    original.date.GetOr("Unknown")
  }

  /** The body of the reply: the new text, then the attribution, then the
      original quoted (plain) or appended after a rule (HTML; the original's
      HTML part, else its text). */
  function ReplyBody(body: string, original: Message, html: bool): (r: string)
    ensures StartsWith(r, body)
    ensures !html ==> EndsWith(r, Quote(original.text))
    ensures html ==> EndsWith(r, if original.html != "" then original.html else original.text)
  {
    var r := if html then
      body + "<br><br>" + "<hr><br>"
      + "<b>On " + DateText(original) + ", " + original.sender + " wrote:</b><br>"
      + (if original.html != "" then original.html else original.text)
    else
      body + "\n\n"
      + "On " + DateText(original) + ", " + original.sender + " wrote:\n"
      + Quote(original.text);
    assert r[..|body|] == body;
    r
  }

  /** The outgoing reply to `original`. */
  function Reply(body: string, original: Message, replyAll: bool, html: bool): (r: Outgoing)
    ensures r.to == [original.sender]
    ensures r.cc == Recipients(original, replyAll).1
    ensures IsReply(r.subject) && EndsWith(r.subject, BaseSubject(original.subject))
    ensures r.subject == Subject(original)
    ensures StartsWith(r.body, body)
    ensures r.html == html
  {
    var (to, cc) := Recipients(original, replyAll);
    Outgoing(to, Subject(original), ReplyBody(body, original, html), cc, html)
  }

  /** The confirmation text. */
  function Confirmation(reply: Outgoing, uid: string): (r: string)
    ensures StartsWith(r, "✅ Reply sent successfully!\n\nTo: " + Join(reply.to, ", ") + "\n")
    ensures EndsWith(r, "Subject: " + reply.subject + "\nIn reply to UID: " + uid + "\n")
  {
    var head := "✅ Reply sent successfully!\n\nTo: " + Join(reply.to, ", ") + "\n";
    var cc := if reply.cc.Some? && reply.cc.value != [] then "CC: " + Join(reply.cc.value, ", ") + "\n" else "";
    var tail := "Subject: " + reply.subject + "\nIn reply to UID: " + uid + "\n";
    var r := head + cc + tail;
    assert r[..|head|] == head;
    assert r[|r| - |tail|..] == tail;
    r
  }

  /** `email_reply(arguments)`: the text the tool returns. A missing UID
      or body is refused before the mailbox is touched. */
  function EmailReplyTool(account: string, folder: string, uid: Option<string>, body: string,
                          replyAll: bool, html: bool, fetch: Fetch, send: Send): (r: string)
    ensures uid.None? || uid.value == "" ==> r == "Error: Email UID is required"
    ensures uid.Some? && uid.value != "" && body == "" ==> r == "Error: Reply body is required"
    ensures uid.Some? && uid.value != "" && body != "" && fetch(account, folder, uid.value) == Ok([]) ==>
      r == "Email with UID " + uid.value + " not found in " + folder
  {
    if uid.None? || uid.value == "" then "Error: Email UID is required"
    else if body == "" then "Error: Reply body is required"
    else
      match fetch(account, folder, uid.value)
      case Err(e) => "Error sending reply: " + e
      case Ok(messages) =>
        if messages == [] then "Email with UID " + uid.value + " not found in " + folder
        else
          var reply := Reply(body, messages[0], replyAll, html);
          match send(account, reply)
          case Err(e) => "Error sending reply: " + e
          case Ok(result) =>
            if result.success then Confirmation(reply, uid.value)
            else "❌ Failed to send reply: " + result.message
  }

  /** With valid arguments and a message found, exactly the reply to the
      first message fetched is sent. */
  lemma RepliesToFirstFetched(account: string, folder: string, uid: string, body: string,
                              replyAll: bool, html: bool, fetch: Fetch, send: Send,
                              messages: seq<Message>, result: SendResult)
    requires uid != "" && body != ""
    requires fetch(account, folder, uid) == Ok(messages) && messages != []
    requires send(account, Reply(body, messages[0], replyAll, html)) == Ok(result)
    ensures result.success ==>
      EmailReplyTool(account, folder, Some(uid), body, replyAll, html, fetch, send)
      == Confirmation(Reply(body, messages[0], replyAll, html), uid)
    ensures !result.success ==>
      EmailReplyTool(account, folder, Some(uid), body, replyAll, html, fetch, send)
      == "❌ Failed to send reply: " + result.message
  {
  }
}
