/** How often start() tries. */
module StartLimit {
  const MAX_START_ATTEMPTS: nat := 5
}
