/** The three encodings of the live gate agree, and where they differ from one another. */
module LaneGates {
  import opened Options
  import opened Text
  import opened LaneModels

  lemma NoBlankGates(fields: seq<(Gate, Option<string>)>)
    ensures BlankGates(fields) == {} <==> AllPresent(fields)
  {
    hide Present;
    if !AllPresent(fields) {
      var i :| 0 <= i < |fields| && !Present(fields[i].1);
      assert fields[i].0 in BlankGates(fields);
    }
  }

  lemma AllLiveFieldsPresent(p: Profile)
    ensures AllPresent(LiveFields(p)) <==>
            && Present(p.riskProfileId) && Present(p.credentialSlotRef) && Present(p.activatedBy)
            && Present(p.activatedAt) && Present(p.configChecksum) && Present(p.manualReviewId)
            && Present(p.dataTesterRef) && Present(p.execTesterRef) && Present(p.reconciliationRef)
  {
    hide Present;
    var f := LiveFields(p);
    assert f[0].1 == p.riskProfileId && f[1].1 == p.credentialSlotRef && f[2].1 == p.activatedBy
        && f[3].1 == p.activatedAt && f[4].1 == p.configChecksum && f[5].1 == p.manualReviewId
        && f[6].1 == p.dataTesterRef && f[7].1 == p.execTesterRef && f[8].1 == p.reconciliationRef;
  }

  /** The blocked reasons of any LIVE profile are empty exactly when it is live-enabled and bound to a venue. */
  lemma LiveReasons(p: Profile)
    requires p.mode.Live?
    ensures ProfileReasons(p) == {} <==> IsLiveEnabled(p) && Present(p.adapterId) && Present(p.venue)
  {
    hide Present;
    hide BlankGates;
    var binding := Binding(p);
    NoBlankGates(binding);
    assert AllPresent(binding) <==> Present(binding[0].1) && Present(binding[1].1);
    NoBlankGates(LiveFields(p));
    AllLiveFieldsPresent(p);
    hide LiveFields;
    if ProfileReasons(p) == {} {
      assert BlankGates(binding) == {} && BlankGates(LiveFields(p)) == {};
    }
  }

  /** For every validated LIVE profile: asking for any live authority, being live-enabled, and having no
      blocked reason are the same thing. */
  lemma LiveGatesAgree(p: Profile)
    requires ProfileValid(p) && p.mode.Live?
    ensures WantsLiveAuthority(p) <==> IsLiveEnabled(p)
    ensures IsLiveEnabled(p) <==> ProfileReasons(p) == {}
  {
    hide Present;
    hide LiveFields;
    hide ProfileReasons;
    LiveReasons(p);
    AllLiveFieldsPresent(p);
  }

  /** Without the validator the agreement fails exactly on live-enabled profiles with no venue binding. */
  lemma LiveGatesDisagree(p: Profile)
    requires p.mode.Live?
    ensures (IsLiveEnabled(p) <==> ProfileReasons(p) == {}) <==>
            !(IsLiveEnabled(p) && !(Present(p.adapterId) && Present(p.venue)))
  {
    hide ProfileReasons;
    hide IsLiveEnabled;
    LiveReasons(p);
  }

  /** A live-enabled profile without a venue: the property says enabled, the plan is blocked, and the validator rejects it. */
  lemma UnboundLiveProfile()
    ensures var p := SampleProfile().(venue := None);
            IsLiveEnabled(p) && ProfileReasons(p) != {} && !ProfileValid(p)
  {
    hide ProfileReasons;
    var p := SampleProfile().(venue := None);
    assert Present(Some("x")) && Present(p.configChecksum);
    LiveReasons(p);
  }

  lemma BindingGates(p: Profile)
    ensures BlankGates(Binding(p)) <= {AdapterId, Venue}
    ensures AdapterId !in BlankGates(LiveFields(p)) && Venue !in BlankGates(LiveFields(p))
    ensures ConfigChecksumSha256 !in BlankGates(LiveFields(p))
    ensures AdapterId in BlankGates(Binding(p)) <==> !Present(p.adapterId)
    ensures Venue in BlankGates(Binding(p)) <==> !Present(p.venue)
  {
    hide Present;
    assert Binding(p)[0] == (AdapterId, p.adapterId) && Binding(p)[1] == (Venue, p.venue);
    assert forall i :: 0 <= i < |LiveFields(p)| ==> LiveFields(p)[i].0 !in {AdapterId, Venue, ConfigChecksumSha256};
  }

  /** The gates a rejection names are the ones the plan blocks on: for an enabled unbound profile the binding gates, and
      for a bound LIVE profile that asks for authority all others, besides the length of the checksum. */
  lemma MissingGatesAreBlockedReasons(p: Profile)
    ensures p.clean && Unbound(p) ==> MissingGates(p) == ProfileReasons(p) * {AdapterId, Venue} != {}
    ensures p.clean && !Unbound(p) && p.mode.Live? && WantsLiveAuthority(p) ==>
              MissingGates(p) - {ConfigChecksumSha256} == ProfileReasons(p) - {AdapterId, Venue}
  {
    hide Present, BlankGates, LiveFields, Binding, LiveGaps, ProfileReasons, WantsLiveAuthority;
    if Unbound(p) {
      UnboundReasons(p);
    } else if p.mode.Live? && WantsLiveAuthority(p) {
      BoundReasons(p);
    }
  }

  lemma UnboundReasons(p: Profile)
    requires Unbound(p)
    ensures BlankGates(Binding(p)) == ProfileReasons(p) * {AdapterId, Venue} != {}
  {
    hide Present, BlankGates, LiveFields, Binding;
    BindingGates(p);
  }

  lemma BoundReasons(p: Profile)
    requires p.mode.Live?
    ensures LiveGaps(p) - {ConfigChecksumSha256} == ProfileReasons(p) - {AdapterId, Venue}
  {
    hide Present, LiveGates, BlankGates, Binding, ChecksumFits;
    BindingGates(p);
    OtherGates(p);
  }

  lemma OtherGates(p: Profile)
    ensures AdapterId !in LiveGates(p) && Venue !in LiveGates(p) && ConfigChecksumSha256 !in LiveGates(p)
  {
    hide BlankGates, LiveFields;
    BindingGates(p);
  }

  lemma PaperReasons(p: Profile)
    requires p.mode.Paper?
    ensures ProfileReasons(p) == {} <==>
            && p.enabled && Present(p.adapterId) && Present(p.venue)
            && p.paperTradingEnabled && !WantsLiveAuthority(p)
  {
    hide Present;
    hide BlankGates;
    var binding := Binding(p);
    NoBlankGates(binding);
    assert AllPresent(binding) <==> Present(binding[0].1) && Present(binding[1].1);
    if ProfileReasons(p) == {} {
      assert BlankGates(binding) == {};
    }
  }

  /** A validated PAPER profile is READY exactly when it is enabled, whatever matching command it is planned with. */
  lemma PaperReadyIffEnabled(p: Profile, c: Option<CommandBody>)
    requires ProfileValid(p) && p.mode.Paper? && PlanScopeMatches(p, c)
    ensures PlanOf(p, c).value.ready <==> p.enabled
    ensures !PlanOf(p, c).value.maySubmitOrder
  {
    hide ProfileReasons;
    PaperReasons(p);
    assert Reasons(p, c) == ProfileReasons(p);
  }

  lemma CommandEvidencePresent(c: CommandBody)
    requires AllPresent(CommandFields(c))
    ensures BlankGates(CommandEvidence(c)) == {}
  {
    hide Present;
    var f, e := CommandFields(c), CommandEvidence(c);
    assert f[0].1 == e[0].1 && f[3].1 == e[1].1 && f[4].1 == e[2].1 && f[5].1 == e[3].1 && f[6].1 == e[4].1;
    NoBlankGates(e);
  }

  /** A command that the service accepted passes every plan gate except, possibly, the exact risk status. */
  lemma AcceptedCommandReasons(p: Profile, c: CommandBody)
    requires CommandValid(c) && ProfileMatches(p, c) && CommandWantsLive(c)
    ensures CommandReasons(p, c) == if c.riskStatus == Some("approved") then {} else {OfCommand(RiskDecisionApproved)}
  {
    hide Present;
    hide IsLiveEnabled;
    hide BlankGates;
    hide CommandEvidence;
    hide Lower;
    CommandEvidencePresent(c);
  }

  /** The plan of an accepted live-authority command on the unchanged profile is READY, and carries order
      authority, exactly when its risk status is spelt "approved". */
  lemma ReadyIffExactlyApproved(p: Profile, c: CommandBody)
    requires ProfileValid(p) && p.profileId == c.profileId
    requires CommandValid(c) && ProfileMatches(p, c) && CommandWantsLive(c)
    ensures PlanOf(p, Some(c)).Some?
    ensures PlanOf(p, Some(c)).value.ready <==> c.riskStatus == Some("approved")
    ensures PlanOf(p, Some(c)).value.maySubmitOrder <==> c.riskStatus == Some("approved")
  {
    hide ProfileReasons;
    hide CommandReasons;
    AcceptedCommandReasons(p, c);
    LiveGatesAgree(p);
    assert Reasons(p, Some(c)) == CommandReasons(p, c);
  }

  ghost function SampleProfile(): Profile {
    var x := Some("x");
    Profile("t", "p", "r", Live, true, x, x, None, false, false, false, true, true, true, true, true,
            x, x, x, x, Some(seq(SHA256_LEN, _ => 'a')), x, x, x, x, true)
  }

  ghost function SampleCommand(status: string): CommandBody {
    var x := Some("x");
    CommandBody("t", "p", "r", Live, "x", "x", None, "a", "e", "k", "l", "v",
                Some(status), x, x, true, x, x, x, x, x, true, true, true, None, true)
  }

  /** The gates really differ: the command model and the service accept "APPROVED", the plan blocks it. */
  lemma UpperCaseApprovalIsBlocked()
    ensures ProfileValid(SampleProfile())
    ensures CommandValid(SampleCommand("APPROVED")) && ProfileMatches(SampleProfile(), SampleCommand("APPROVED"))
    ensures PlanOf(SampleProfile(), Some(SampleCommand("APPROVED"))).Some?
    ensures !PlanOf(SampleProfile(), Some(SampleCommand("APPROVED"))).value.ready
  {
    var p, c := SampleProfile(), SampleCommand("APPROVED");
    var x := Some("x");
    assert Present(x) && Present(p.configChecksum);
    hide Present;
    AllLiveFieldsPresent(p);
    assert forall i :: 0 <= i < |CommandFields(c)| ==> CommandFields(c)[i].1 == x;
    assert RiskApproved(c) by { CapitalsAreApproved(); }
    hide Lower;
    ReadyIffExactlyApproved(p, c);
    assert "APPROVED"[0] != "approved"[0];
  }

  lemma CapitalsAreApproved()
    ensures Lower("APPROVED") == "approved"
  {
  }

  /** Whatever profile and command a plan is built from: it carries an authority flag only if it carries all
      three, is LIVE and unblocked, and the profile passes every gate at that moment. */
  lemma PlanAuthorityNeedsEveryGate(p: Profile, c: Option<CommandBody>)
    requires PlanScopeMatches(p, c)
    ensures var plan := PlanOf(p, c).value;
            plan.liveTradingEnabled || plan.executionAuthority || plan.maySubmitOrder ==>
              && plan.liveTradingEnabled && plan.executionAuthority && plan.maySubmitOrder
              && plan.ready && plan.mode.Live? && plan.blockedReasons == {}
              && IsLiveEnabled(p) && Present(p.adapterId) && Present(p.venue)
              && (c.Some? ==>
                    && c.value.liveTradingEnabled && c.value.executionAuthority && c.value.maySubmitOrder
                    && c.value.riskStatus == Some("approved") && SameEvidence(p, c.value))
  {
    hide ProfileReasons;
    var plan := PlanOf(p, c).value;
    if plan.liveTradingEnabled || plan.executionAuthority || plan.maySubmitOrder {
      assert Reasons(p, c) == {};
      assert ProfileReasons(p) == {};
      LiveReasons(p);
      if c.Some? {
        UnblockedCommand(p, c.value);
      }
    }
  }

  lemma UnblockedCommand(p: Profile, c: CommandBody)
    requires p.mode.Live? && CommandReasons(p, c) == {}
    ensures c.liveTradingEnabled && c.executionAuthority && c.maySubmitOrder
    ensures c.riskStatus == Some("approved") && SameEvidence(p, c)
  {
    hide BlankGates;
    hide CommandEvidence;
  }
}
