/**
 * The lead record (`Lead`, `LeadStatus`) and what a lead card derives from it:
 * avatar initials, whether the Claim button and the owner line are shown, and
 * the link behind "Create Sequence".
 */
module LeadCard {
  import opened Wrappers
  import opened Text
  import Url

  /** The five lead statuses; `Name` is the string the client stores. */
  datatype LeadStatus = Active | EmailSent | AwaitingReply | Replied | Claimed {
    function Name(): string {
      match this
      case Active => "active"
      case EmailSent => "email_sent"
      case AwaitingReply => "awaiting_reply"
      case Replied => "replied"
      case Claimed => "claimed"
    }
  }

  /** A lead as the client holds it; `owner` is optional. */
  datatype Lead = Lead(id: string, name: string, email: string, phone: string,
                       status: LeadStatus, owner: Option<string>)

  /** A lead without its id: what the add/edit form submits. */
  datatype LeadInput = LeadInput(name: string, email: string, phone: string,
                                 status: LeadStatus, owner: Option<string>)

  /** `{ ...input, id }`. */
  function WithId(input: LeadInput, id: string): (l: Lead)
    ensures l.id == id && l.name == input.name && l.email == input.email
    ensures l.phone == input.phone && l.status == input.status && l.owner == input.owner
  {
    Lead(id, input.name, input.email, input.phone, input.status, input.owner)
  }

  /** `lead.owner` is truthy: present and not the empty string. */
  predicate HasOwner(l: Lead) {
    l.owner.Some? && l.owner.value != ""
  }

  /** The Claim button is rendered: no owner and a claim handler was passed. */
  function ClaimOffered(l: Lead, hasClaimHandler: bool): (shown: bool)
    ensures shown <==> hasClaimHandler && (l.owner.None? || l.owner.value == "")
  {
    !HasOwner(l) && hasClaimHandler
  }

  /** The "Owner: ..." line is rendered exactly when the owner is truthy. */
  function OwnerLine(l: Lead): (line: Option<string>)
    ensures line.Some? <==> l.owner.Some? && l.owner.value != ""
    ensures line.Some? ==> line.value == "Owner: " + l.owner.value
  {
    if HasOwner(l) then Some("Owner: " + l.owner.value) else None
  }

  /** The characters that begin a space-separated word: a non-space character at
      the start of `s` (when `atWordStart`) or right after a space. */
  function WordStarts(s: string, atWordStart: bool): string {
    if s == [] then []
    else (if atWordStart && s[0] != ' ' then [s[0]] else []) + WordStarts(s[1..], s[0] == ' ')
  }

  /** `words.map(n => n[0]).join("")`: an empty word contributes nothing. */
  function FirstChars(words: seq<string>): string {
    if words == [] then []
    else (if words[0] == [] then [] else [words[0][0]]) + FirstChars(words[1..])
  }

  /** The avatar initials: the first character of each space-separated word,
      upper-cased, at most two of them. */
  function Initials(name: string): (r: string)
    ensures |WordStarts(name, true)| <= 2 ==> |r| == |WordStarts(name, true)|
    ensures |WordStarts(name, true)| > 2 ==> |r| == 2
    ensures forall k :: 0 <= k < |r| ==> r[k] == UpperChar(WordStarts(name, true)[k])
  {
    FirstCharsOfSplit(name);
    var all := Upper(FirstChars(SplitSpaces(name)));
    if |all| <= 2 then all else all[..2]
  }

  /** Mapping the words of `s.split(" ")` to their first characters picks exactly
      the characters that start a word. */
  lemma {:induction false} FirstCharsOfSplit(s: string)
    ensures FirstChars(SplitSpaces(s)) == WordStarts(s, true)
    ensures FirstChars(SplitSpaces(s)[1..]) == WordStarts(s, false)
  {
    if s != [] {
      var rest := SplitSpaces(s[1..]);
      FirstCharsOfSplit(s[1..]);
      if s[0] == ' ' {
        var r := [[]] + rest;
        assert r[1..] == rest;
        assert FirstChars(r) == FirstChars(rest);
      } else {
        var r := [[s[0]] + rest[0]] + rest[1..];
        assert r[1..] == rest[1..];
        assert FirstChars(r) == [s[0]] + FirstChars(rest[1..]);
      }
    }
  }

  /** Where "Create Sequence" navigates: the sequences page with the flag and the
      lead's email as the recipient. */
  function CreateSequenceLink(email: string): (loc: Url.Location)
    ensures loc.path == "/sequences"
    ensures Url.Get(loc.query, "newSequence") == Some("1")
    ensures Url.Get(loc.query, "to") == Some(email)
  {
    Url.Location("/sequences", [("newSequence", "1"), ("to", email)])
  }
}
