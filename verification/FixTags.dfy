/** Tag numbers and the tag classes that steer encoding and decoding. */
module FixTags {

  const BEGIN_STRING: nat := 8
  const BODY_LENGTH: nat := 9
  const CHECK_SUM: nat := 10
  const MSG_SEQ_NUM: nat := 34
  const MSG_TYPE: nat := 35
  const POSS_DUP_FLAG: nat := 43
  const SENDER_COMP_ID: nat := 49
  const SENDER_SUB_ID: nat := 50
  const SENDING_TIME: nat := 52
  const TARGET_COMP_ID: nat := 56
  const TARGET_SUB_ID: nat := 57
  const POSS_RESEND: nat := 97
  const ON_BEHALF_OF_COMP_ID: nat := 115
  const ORIG_SENDING_TIME: nat := 122
  const DELIVER_TO_COMP_ID: nat := 128
  const APPL_VER_ID: nat := 1128
  const DEFAULT_APPL_VER_ID: nat := 1137

  predicate IsFrameTag(tag: nat) {
    tag == BEGIN_STRING || tag == BODY_LENGTH || tag == CHECK_SUM
  }

  predicate IsStandardHeaderTag(tag: nat) {
    || tag == MSG_SEQ_NUM || tag == MSG_TYPE || tag == POSS_DUP_FLAG
    || tag == SENDER_COMP_ID || tag == SENDER_SUB_ID || tag == SENDING_TIME
    || tag == TARGET_COMP_ID || tag == TARGET_SUB_ID || tag == POSS_RESEND
    || tag == ORIG_SENDING_TIME || tag == APPL_VER_ID || tag == DEFAULT_APPL_VER_ID
  }

  predicate IsRoutingHeaderTag(tag: nat) {
    tag == ON_BEHALF_OF_COMP_ID || tag == DELIVER_TO_COMP_ID
  }

  /** Header fields that the encoders write from their options. */
  predicate IsHeaderTag(tag: nat) {
    IsStandardHeaderTag(tag) || IsRoutingHeaderTag(tag)
  }

  /** Framing fields and header fields together. */
  predicate IsEnvelopeTag(tag: nat) {
    IsFrameTag(tag) || IsHeaderTag(tag)
  }

  predicate IsCommonAdminTag(tag: nat) {
    tag in {7, 16, 36, 45, 58, 95, 96, 98, 108, 112, 123, 141, 789, 553, 554, 371, 372, 373}
  }
}
