/** The cubic trajectory of Python_program_for_2R_Robot.py: a polynomial
    q(t) = a0 + a1 t + a2 t^2 + a3 t^3 that leaves q0 at rest and arrives at qf
    at rest, time being counted from 0 over a window of length tf - t0. */
module CubicTrajectory {
  import opened RealMath

  datatype Coefficients = Coefficients(a0: real, a1: real, a2: real, a3: real)

  /** The coefficients of the rest-to-rest cubic from q0 to qf. The script
      divides by (tf - t0)^2 and (tf - t0)^3, so the window must not be empty. */
  function CubicCoefficients(q0: real, qf: real, t0: real, tf: real): (c: Coefficients)
    requires tf != t0
    ensures c.a0 == q0 && c.a1 == 0.0
    ensures c.a2 * Square(tf - t0) == 3.0 * (qf - q0)
    ensures c.a3 * Cube(tf - t0) == -2.0 * (qf - q0)
  {
    PowersNonZero(tf - t0);
    DivMulCancel(3.0 * (qf - q0), Square(tf - t0));
    DivMulCancel(-2.0 * (qf - q0), Cube(tf - t0));
    Coefficients(q0, 0.0, 3.0 * (qf - q0) / Square(tf - t0), -2.0 * (qf - q0) / Cube(tf - t0))
  }

  /** The position at time t. In Horner form it is a0 plus t times a quadratic in t. */
  function CubicTrajectory(t: real, c: Coefficients): (q: real)
    ensures q - c.a0 == t * (c.a1 + t * (c.a2 + t * c.a3))
  {
    c.a0 + c.a1 * t + c.a2 * Square(t) + c.a3 * Cube(t)
  }

  /** The rate of change of CubicTrajectory at time t. */
  function CubicVelocity(t: real, c: Coefficients): real
  {
    c.a1 + 2.0 * c.a2 * t + 3.0 * c.a3 * Square(t)
  }

  /** CubicVelocity is the derivative of CubicTrajectory: the change over a step
      h is h times the velocity plus a remainder of order h^2. */
  lemma VelocityIsDerivative(t: real, h: real, c: Coefficients)
    ensures CubicTrajectory(t + h, c) - CubicTrajectory(t, c)
         == h * CubicVelocity(t, c) + h * h * (c.a2 + 3.0 * c.a3 * t + c.a3 * h)
  {
    calc {
      Square(t + h);
      t * t + 2.0 * t * h + h * h;
    }
    calc {
      Cube(t + h);
      t * t * t + 3.0 * t * t * h + 3.0 * t * h * h + h * h * h;
    }
  }

  /** The trajectory starts at q0. */
  lemma StartsAtStart(q0: real, qf: real, t0: real, tf: real)
    requires tf != t0
    ensures CubicTrajectory(0.0, CubicCoefficients(q0, qf, t0, tf)) == q0
  {
  }

  /** The trajectory reaches qf after tf - t0 time units. */
  lemma EndsAtGoal(q0: real, qf: real, t0: real, tf: real)
    requires tf != t0
    ensures CubicTrajectory(tf - t0, CubicCoefficients(q0, qf, t0, tf)) == qf
  {
  }

  /** The velocity at the end of a window of length s vanishes whenever the
      coefficients satisfy the two equations CubicCoefficients solves. */
  lemma {:induction false} RestAtEnd(a2: real, a3: real, s: real, d: real)
    requires s != 0.0
    requires a2 * Square(s) == 3.0 * d
    requires a3 * Cube(s) == -2.0 * d
    ensures 2.0 * a2 * s + 3.0 * a3 * Square(s) == 0.0
  {
    var v := 2.0 * a2 * s + 3.0 * a3 * Square(s);
    calc {
      v * s;
      2.0 * (a2 * Square(s)) + 3.0 * (a3 * Cube(s));
      6.0 * d - 6.0 * d;
      0.0;
    }
    ZeroFactor(v, s);
  }

  /** The trajectory is at rest at both ends of the window. */
  lemma AtRestAtBothEnds(q0: real, qf: real, t0: real, tf: real)
    requires tf != t0
    ensures CubicVelocity(0.0, CubicCoefficients(q0, qf, t0, tf)) == 0.0
    ensures CubicVelocity(tf - t0, CubicCoefficients(q0, qf, t0, tf)) == 0.0
  {
    var c := CubicCoefficients(q0, qf, t0, tf);
    RestAtEnd(c.a2, c.a3, tf - t0, qf - q0);
  }

  /** With nothing to travel, the cubic is flat: it stays at q0 throughout. */
  lemma StillWhenNoTravel(q0: real, t0: real, tf: real, t: real)
    requires tf != t0
    ensures CubicCoefficients(q0, q0, t0, tf) == Coefficients(q0, 0.0, 0.0, 0.0)
    ensures CubicTrajectory(t, CubicCoefficients(q0, q0, t0, tf)) == q0
  {
    var c := CubicCoefficients(q0, q0, t0, tf);
    PowersNonZero(tf - t0);
    ZeroFactor(c.a2, Square(tf - t0));
    ZeroFactor(c.a3, Cube(tf - t0));
  }
}
