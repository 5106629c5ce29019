/**
 * The mock payment gateway (domain/payment/service/MockPaymentService.java):
 * a stateless oracle whose answer does not depend on the amount or method.
 */
module MockPayment {
  import Payments

  /** `processPayment`: always approves. */
  function ProcessPayment(amount: int, payMethod: Payments.PaymentMethod): (approved: bool)
    ensures approved
  {
    true
  }

  /** `processPaymentWithFailure`: declines when forced to, otherwise asks `processPayment`. */
  function ProcessPaymentWithFailure(amount: int, payMethod: Payments.PaymentMethod, forceFail: bool): (approved: bool)
    ensures approved <==> !forceFail
  {
    if forceFail then false else ProcessPayment(amount, payMethod)
  }

  /** Neither answer depends on the amount or the method, and without forcing the two agree. */
  lemma AnswersIgnoreAmountAndMethod(a1: int, m1: Payments.PaymentMethod, a2: int, m2: Payments.PaymentMethod, forceFail: bool)
    ensures ProcessPayment(a1, m1) == ProcessPayment(a2, m2)
    ensures ProcessPaymentWithFailure(a1, m1, forceFail) == ProcessPaymentWithFailure(a2, m2, forceFail)
    ensures ProcessPaymentWithFailure(a1, m1, false) == ProcessPayment(a1, m1)
  {
  }
}
