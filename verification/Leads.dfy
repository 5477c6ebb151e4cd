/** Leads and campaigns (app/models/lead.py, app/models/campaign.py,
    app/repositories/leads_repo.py).  Rows are not deleted; a lead's id is its place in the
    table, and leads are created in that order.  Emails are stripped and lower-case. */
module Leads {
  import opened Common

  datatype PackStatus = PackNotRequested | PackPending | PackSent | PackFailed | PackSkipped
  datatype CrmStatus = CrmPending | CrmSynced | CrmFailed | CrmSkipped

  /** `second` is the email of a second participant, empty when there is none. */
  datatype Lead = Lead(
    campaign: nat, email: string, answers: string, second: string, requested: seq<string>, tags: seq<string>,
    inspection: bool, consentAt: Option<Instant>,
    pack: PackStatus, deliveredAt: Option<Instant>, delivered: seq<string>, crm: CrmStatus)

  /** A `materials_assets` entry: one link, or a list of them. */
  datatype Asset = Link(url: string) | Links(urls: seq<string>)

  datatype Campaign = Campaign(
    slug: string, active: bool, materials: seq<string>, assets: map<string, Asset>, crmSyncEnabled: bool,
    baseTags: seq<string>, tagMap: map<string, string>, packTag: string, inspectionTag: string, newsletterTag: string)

  /** What a CRM contact carries of a lead, as far as it changes with delivery. */
  datatype Contact = Contact(
    email: string, requested: seq<string>, tags: seq<string>,
    collateralSent: Option<string>, lifecycleStage: Option<string>, hasStatusField: bool)

  /** What happened, oldest first: submissions with the request stored before them, pack
      emails that went out, and contacts the CRM took of a lead or its second participant. */
  datatype Event =
    | Captured(lead: nat, materials: seq<string>, stored: seq<string>)
    | PackEmail(lead: nat)
    | Pushed(lead: nat, contact: Contact)
    | PushedSecond(lead: nat, address: string)

  datatype State = State(campaigns: map<nat, Campaign>, leads: seq<Lead>, log: seq<Event>)

  class LeadStore {
    var campaigns: map<nat, Campaign>
    var leads: seq<Lead>
    var log: seq<Event>

    function Now(): State
      reads this
    {
      State(campaigns, leads, log)
    }
  }

  /** The index on (campaign, email). */
  predicate Exists(leads: seq<Lead>, campaign: nat, email: string) {
    exists i :: 0 <= i < |leads| && leads[i].campaign == campaign && leads[i].email == email
  }

  /** `get_by_campaign_email`: the first matching lead's id from `from` on, or -1. */
  function Find(leads: seq<Lead>, campaign: nat, email: string, from: nat): (id: int)
    requires from <= |leads|
    ensures id == -1 || from <= id < |leads|
    ensures id >= 0 ==> leads[id].campaign == campaign && leads[id].email == email
    ensures id < 0 ==> forall i :: from <= i < |leads| ==> !(leads[i].campaign == campaign && leads[i].email == email)
    decreases |leads| - from
  {
    if from == |leads| then -1
    else if leads[from].campaign == campaign && leads[from].email == email then from
    else Find(leads, campaign, email, from + 1)
  }

  /** The kept elements of `s`, each at its first place. */
  function Distinct(s: seq<string>, keep: string -> bool): seq<string> {
    if s == [] then []
    else
      var last, before := s[|s| - 1], Distinct(s[..|s| - 1], keep);
      if keep(last) && last !in before then before + [last] else before
  }

  /** `Distinct` is a duplicate-free sub-list with exactly the kept elements: `places` says
      where in `s` each of them first stands. */
  lemma {:induction false} DistinctIsExact(s: seq<string>, keep: string -> bool) returns (places: seq<nat>)
    ensures var d := Distinct(s, keep);
            && |places| == |d|
            && (forall k :: 0 <= k < |d| ==> places[k] < |s| && s[places[k]] == d[k] && d[k] !in s[..places[k]])
            && (forall j, k :: 0 <= j < k < |d| ==> places[j] < places[k] && d[j] != d[k])
            && (forall x :: x in d <==> x in s && keep(x))
  {
    places := [];
    if s != [] {
      var n := |s| - 1;
      places := DistinctIsExact(s[..n], keep);
      assert s == s[..n] + [s[n]];
      assert forall k :: 0 <= k < |places| ==> s[..places[k]] == s[..n][..places[k]];
      if keep(s[n]) && s[n] !in Distinct(s[..n], keep) {
        places := places + [n];
      }
    }
  }
}
