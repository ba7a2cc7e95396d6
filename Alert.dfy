/**
 * The alert message of `send_email`: who receives it and what its subject says.
 * The body text is a fixed template around the same facts and is not modelled.
 */
module Alert {
  import opened Wrappers

  /** The operator address that receives every alert (`default_mail`). */
  const Fallback: string := "ops@domain.com"

  /** The fixed, verified sender address. */
  const Sender: string := "xyz@domain.com"

  const SubjectPrefix: string := "[ALERT] Long Running EMR Cluster "

  /** The SES `Destination` argument; `cc` is `None` when there is no `CcAddresses` entry. */
  datatype Destination = Destination(to: seq<string>, cc: Option<seq<string>>)

  /** Every address the message goes to, primary ones first. */
  function Addresses(d: Destination): seq<string> {
    d.to + (if d.cc.Some? then d.cc.value else [])
  }

  /**
   * Owner recipients as primary with the fallback in copy, or the fallback alone as primary.
   * Nobody is dropped and the fallback is always added: the addresses are exactly
   * `recipients + [fallback]`.
   */
  function BuildDestination(recipients: seq<string>, fallback: string): (d: Destination)
    ensures Addresses(d) == recipients + [fallback]
    ensures d.cc.None? <==> recipients == []
    ensures recipients == [] ==> d.to == [fallback]
    ensures recipients != [] ==> d.to == recipients && d.cc == Some([fallback])
  {
    if recipients != [] then Destination(recipients, Some([fallback]))
    else Destination([fallback], None)
  }

  /** The subject names the cluster and, in parentheses at its end, the cluster id. */
  function Subject(name: string, id: string): (r: string)
    ensures |r| == |SubjectPrefix| + |name| + |id| + 3
    ensures r[..|SubjectPrefix|] == SubjectPrefix
    ensures r[|SubjectPrefix|..|SubjectPrefix| + |name|] == name
    ensures r[|r| - |id| - 1..|r| - 1] == id
    ensures r[|r| - |id| - 3..|r| - |id| - 1] == " (" && r[|r| - 1] == ')'
  {
    SubjectPrefix + name + " (" + id + ")"
  }

  /** What is handed to the mail service: sender, destination, subject and the elapsed time. */
  datatype Email = Email(source: string, destination: Destination, subject: string, duration: int)

  /** The message `send_email` builds for one cluster. */
  function AlertEmail(id: string, name: string, duration: int, recipients: seq<string>): (e: Email)
    ensures e.source == Sender && e.duration == duration && e.subject == Subject(name, id)
    ensures Fallback in Addresses(e.destination)
    ensures Addresses(e.destination) == recipients + [Fallback]
  {
    Email(Sender, BuildDestination(recipients, Fallback), Subject(name, id), duration)
  }

  /** The fallback is the sole primary recipient exactly when no owner address was found. */
  lemma FallbackIsSolePrimaryWithoutOwner(recipients: seq<string>, fallback: string)
    requires fallback !in recipients
    ensures BuildDestination(recipients, fallback).to == [fallback] <==> recipients == []
  {
    if recipients != [] {
      assert recipients[0] in recipients;
    }
  }
}
