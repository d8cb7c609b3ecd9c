/** The round timer shared by the colour and the maths game. */
module Timer {

  const InitialTimeLimit: int := 3000
  const TimeDecreasePerRound: int := 150
  const MinTimeLimit: int := 700

  /** The time limit of the round that follows a correct answer:
      `max(initialTimeLimit - score * timeDecreasePerRound, MIN_TIME_LIMIT)`. */
  function NextTimeLimit(score: nat): (r: int)
    ensures MinTimeLimit <= r <= InitialTimeLimit
    ensures r >= InitialTimeLimit - score * TimeDecreasePerRound
    ensures r == MinTimeLimit || r == InitialTimeLimit - score * TimeDecreasePerRound
  {
    var shrunk := InitialTimeLimit - score * TimeDecreasePerRound;
    if shrunk > MinTimeLimit then shrunk else MinTimeLimit
  }

  /** A higher score never buys a longer round. */
  lemma NextTimeLimitAntitone(s1: nat, s2: nat)
    requires s1 <= s2
    ensures NextTimeLimit(s2) <= NextTimeLimit(s1)
  {
  }

  /** The floor is reached exactly from score 16 on (3000 - 16 * 150 < 700 <= 3000 - 15 * 150). */
  lemma NextTimeLimitFloor(score: nat)
    ensures NextTimeLimit(score) == MinTimeLimit <==> score >= 16
  {
  }

  /** `timeLimit - (millis() - roundStartTime)`. */
  function Remaining(timeLimit: int, roundStartTime: real, now: real): real {
    timeLimit as real - (now - roundStartTime)
  }

  /** `updateTimer`'s expiry test. */
  predicate Expired(timeLimit: int, roundStartTime: real, now: real) {
    Remaining(timeLimit, roundStartTime, now) <= 0.0
  }

  /** A round has expired exactly once its deadline is reached, and stays expired. */
  lemma ExpiredIffDeadline(timeLimit: int, roundStartTime: real, now: real, later: real)
    requires now <= later
    ensures Expired(timeLimit, roundStartTime, now) <==> now >= roundStartTime + timeLimit as real
    ensures Expired(timeLimit, roundStartTime, now) ==> Expired(timeLimit, roundStartTime, later)
  {
  }
}
