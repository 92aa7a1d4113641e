/** The field names of the snapshot's records, in the order they are written. */
module SnapshotNames {
  import opened JsonText

  const IFACE_NAMES: seq<string> := ["name", "admin_up"]

  const PDP_FIELDS := 10

  const PDP_NAMES: seq<string> := [
    "teid", "sequence", "pdp_type", "has_pdp_type", "last_message_type", "peer_ip", "ggsn_ip", "imsi", "apn",
    "updated_at"
  ]

  const UE_FIELDS := 37

  const IDENTITY_NAMES: seq<string> := ["imsi", "guti", "peer_id"]

  const AUTHENTICATION_NAMES: seq<string> := [
    "authenticated", "auth_request_sent", "auth_response_received", "security_mode_command_sent",
    "security_mode_complete"
  ]

  const ATTACH_NAMES: seq<string> := ["attach_accept_sent", "attach_complete_received", "attached"]

  const SERVICE_NAMES: seq<string> := ["service_request_received", "service_accept_sent", "service_active"]

  const IDLE_NAMES: seq<string> := [
    "service_resume_request_received", "service_resume_accept_sent", "service_release_request_received",
    "service_release_complete_sent"
  ]

  const DETACH_NAMES: seq<string> := ["detach_request_received", "detach_accept_sent", "detached"]

  const TAU_NAMES: seq<string> := [
    "tracking_area_update_request_received", "tracking_area_update_accept_sent",
    "tracking_area_update_complete_received"
  ]

  const LAST_NAMES: seq<string> := ["last_nas_message_type", "has_last_nas_message_type", "last_s1ap_procedure"]

  const SECURITY_NAMES: seq<string> := [
    "security_context_id", "has_security_context_id", "selected_nas_algorithm", "has_selected_nas_algorithm"
  ]

  const BEARER_NAMES: seq<string> := [
    "default_bearer_id", "has_default_bearer_id", "tracking_area_code", "has_tracking_area_code"
  ]

  const CLOSING_NAMES: seq<string> := ["auth_flow", "updated_at"]

  const UE_NAMES: seq<string> :=
    IDENTITY_NAMES + AUTHENTICATION_NAMES + ATTACH_NAMES + SERVICE_NAMES + IDLE_NAMES + DETACH_NAMES + TAU_NAMES
    + LAST_NAMES + SECURITY_NAMES + BEARER_NAMES + CLOSING_NAMES

  // ----- no name repeats, and none needs escaping -----

  predicate GoodNames(names: seq<string>) {
    AllNames(names) && forall i, j :: 0 <= i < j < |names| ==> names[i] != names[j]
  }

  predicate AllNames(names: seq<string>) {
    forall i :: 0 <= i < |names| ==> Name(names[i])
  }

  lemma IdentityNames()
    ensures Name(IDENTITY_NAMES[0]) && Name(IDENTITY_NAMES[1]) && Name(IDENTITY_NAMES[2])
  {
  }

  lemma AuthenticationNames()
    ensures Name(AUTHENTICATION_NAMES[0]) && Name(AUTHENTICATION_NAMES[1]) && Name(AUTHENTICATION_NAMES[2])
    ensures Name(AUTHENTICATION_NAMES[3]) && Name(AUTHENTICATION_NAMES[4])
  {
  }

  lemma AttachNames()
    ensures Name(ATTACH_NAMES[0]) && Name(ATTACH_NAMES[1]) && Name(ATTACH_NAMES[2])
  {
  }

  lemma ServiceNames()
    ensures Name(SERVICE_NAMES[0]) && Name(SERVICE_NAMES[1]) && Name(SERVICE_NAMES[2])
  {
  }

  lemma IdleNames()
    ensures Name(IDLE_NAMES[0]) && Name(IDLE_NAMES[1]) && Name(IDLE_NAMES[2]) && Name(IDLE_NAMES[3])
  {
  }

  lemma DetachNames()
    ensures Name(DETACH_NAMES[0]) && Name(DETACH_NAMES[1]) && Name(DETACH_NAMES[2])
  {
  }

  lemma TauNames()
    ensures Name(TAU_NAMES[0]) && Name(TAU_NAMES[1])
  {
  }

  lemma TauCompleteName()
    ensures Name(TAU_NAMES[2])
  {
  }

  lemma LastNames()
    ensures Name(LAST_NAMES[0]) && Name(LAST_NAMES[1]) && Name(LAST_NAMES[2])
  {
  }

  lemma SecurityNames()
    ensures Name(SECURITY_NAMES[0]) && Name(SECURITY_NAMES[1]) && Name(SECURITY_NAMES[2]) && Name(SECURITY_NAMES[3])
  {
  }

  lemma BearerNames()
    ensures Name(BEARER_NAMES[0]) && Name(BEARER_NAMES[1]) && Name(BEARER_NAMES[2]) && Name(BEARER_NAMES[3])
  {
  }

  lemma ClosingNames()
    ensures Name(CLOSING_NAMES[0]) && Name(CLOSING_NAMES[1])
  {
  }

  lemma UeNamesAreNames()
    ensures |UE_NAMES| == UE_FIELDS && AllNames(UE_NAMES)
  {
    IdentityNames();
    AuthenticationNames();
    AttachNames();
    ServiceNames();
    IdleNames();
    DetachNames();
    TauNames();
    TauCompleteName();
    LastNames();
    SecurityNames();
    BearerNames();
    ClosingNames();
  }

  lemma EarlyNamesDiffer(i: nat, j: nat)
    requires i < 9 && i < j < |UE_NAMES|
    ensures UE_NAMES[i] != UE_NAMES[j]
  {
  }

  lemma MiddleNamesDiffer(i: nat, j: nat)
    requires 9 <= i < 18 && i < j < |UE_NAMES|
    ensures UE_NAMES[i] != UE_NAMES[j]
  {
  }

  lemma LateNamesDiffer(i: nat, j: nat)
    requires 18 <= i < j < |UE_NAMES|
    ensures UE_NAMES[i] != UE_NAMES[j]
  {
  }

  lemma UeNamesDiffer()
    ensures forall i, j :: 0 <= i < j < |UE_NAMES| ==> UE_NAMES[i] != UE_NAMES[j]
  {
    forall i, j | 0 <= i < j < |UE_NAMES|
      ensures UE_NAMES[i] != UE_NAMES[j]
    {
      if i < 9 {
        EarlyNamesDiffer(i, j);
      } else if i < 18 {
        MiddleNamesDiffer(i, j);
      } else {
        LateNamesDiffer(i, j);
      }
    }
  }

  lemma UeNamesAreGood()
    ensures |UE_NAMES| == UE_FIELDS && GoodNames(UE_NAMES)
  {
    UeNamesAreNames();
    UeNamesDiffer();
  }

  lemma PdpNumberNames()
    ensures forall i :: 0 <= i < 5 ==> Name(PDP_NAMES[i])
  {
  }

  lemma PdpTextNames()
    ensures forall i :: 5 <= i < |PDP_NAMES| ==> Name(PDP_NAMES[i])
  {
  }

  lemma PdpNamesDiffer()
    ensures forall i, j :: 0 <= i < j < |PDP_NAMES| ==> PDP_NAMES[i] != PDP_NAMES[j]
  {
  }

  lemma PdpNamesAreGood()
    ensures |PDP_NAMES| == PDP_FIELDS && GoodNames(PDP_NAMES)
  {
    PdpNumberNames();
    PdpTextNames();
    PdpNamesDiffer();
  }
}
