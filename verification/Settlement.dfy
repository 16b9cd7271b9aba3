/** How a consumer settles a delivery. */
module Settlement {
  /** Nacked stands for nack(requeue=True), which a service that shuts down answers with. */
  datatype Verdict = Acked | Rejected(requeue: bool) | Nacked
}
