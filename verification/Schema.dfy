/** The tables a snapshot may hold, numbered in the alphabetical order of their labels. */
module Schema {
  type Table = nat

  datatype Key = Key(table: Table, pk: nat)

  const PROFILE: Table := 0       // accounts.customerprofile
  const USER: Table := 1          // auth.user
  const EVENT: Table := 2         // loyalty.guestevent
  const LEDGER: Table := 3        // loyalty.ledger
  const MEMBER: Table := 4        // loyalty.member
  const REFERRAL: Table := 5      // loyalty.referral
  const REVISION: Table := 6      // loyalty.referralrevision
  const FINANCE: Table := 7       // payments.hostawayfinancialentry
  const MANUAL_RECEIPT: Table := 8 // payments.manualreceiptreference
  const RECEIPT: Table := 9       // payments.offlinepaymentreceipt
  const PAYMENT: Table := 10      // payments.paymentattempt
  const DELIVERY: Table := 11     // payments.paymentrequestdelivery
  const PAYMENT_LINK: Table := 12 // payments.reservationpaymentrequest
  const PROPERTY: Table := 13     // properties.property
  const INTENT: Table := 14       // reservations.bookingintent
  const MODIFICATION: Table := 15 // reservations.bookingmodificationrequest
  const QUOTE: Table := 16        // reservations.bookingquote
  const CHANGE_OPERATION: Table := 17 // reservations.hostawaymodificationoperation
  const STAY_OPERATION: Table := 18 // reservations.hostawayreservationoperation
  const DRAFT: Table := 19        // reservations.manualbookingdraft
  const REFUND: Table := 20       // reservations.refundobligation
  const RESERVATION: Table := 21  // reservations.reservation

  const TABLES: nat := 22
}
