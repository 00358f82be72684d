/** EnemyHealthSystem: the enemy's health counter, lowered by one point per
    hit and never below zero. */
module EnemyHealth {

  /** The health after one hit: one point less, but not below zero. */
  function Hit(h: int): (r: int)
    ensures r >= 0
    ensures h > 0 ==> r == h - 1
    ensures h <= 0 ==> r == 0
  {
    if h - 1 > 0 then h - 1 else 0
  }

  /** The health after n hits from h. */
  function Hits(h: int, n: nat): (r: int)
  {
    if n == 0 then h else Hit(Hits(h, n - 1))
  }

  /** n hits from a non-negative health leave max(h - n, 0). */
  lemma {:induction false} HitsSaturate(h: nat, n: nat)
    ensures Hits(h, n) == if h >= n then h - n else 0
  {
    if n > 0 {
      HitsSaturate(h, n - 1);
    }
  }

  class EnemyHealthSystem {
    var initialHealth: int
    var currentHealth: int
    /** How often the death handler OnEnemyDie has run. */
    var deathCount: nat

    /** Health stays between zero and the starting health. */
    predicate Valid()
      reads this
    {
      0 <= currentHealth <= initialHealth
    }

    /** Awake: health starts at initialHealth (4 unless configured). */
    constructor (initialHealth: int)
      ensures this.initialHealth == initialHealth && currentHealth == initialHealth && deathCount == 0
      ensures initialHealth >= 0 ==> Valid()
    {
      this.initialHealth := initialHealth;
      currentHealth := initialHealth;
      deathCount := 0;
    }

    /** One point of damage, saturating at zero; the death handler runs
        whenever the health after the hit is zero, including every hit at
        zero. */
    method TakeDamage()
      modifies this`currentHealth, this`deathCount
      ensures old(Valid()) ==> Valid()
      ensures currentHealth == Hit(old(currentHealth))
      ensures old(currentHealth) > 0 ==> currentHealth == old(currentHealth) - 1
      ensures deathCount == old(deathCount) + (if currentHealth == 0 then 1 else 0)
    {
      currentHealth := if currentHealth - 1 > 0 then currentHealth - 1 else 0;
      if currentHealth <= 0 {
        OnEnemyDie();
      }
    }

    method OnEnemyDie()
      modifies this`deathCount
      ensures deathCount == old(deathCount) + 1
    {
      deathCount := deathCount + 1;
    }

    method ResetHealth()
      modifies this`currentHealth
      ensures currentHealth == initialHealth
      ensures initialHealth >= 0 ==> Valid()
    {
      currentHealth := initialHealth;
    }
  }

  /** How often the death handler runs during n hits from h: once for each
      hit that leaves zero health, as TakeDamage counts it. */
  function Deaths(h: int, n: nat): (d: nat)
    ensures d <= n
  {
    if n == 0 then 0 else Deaths(h, n - 1) + (if Hits(h, n) == 0 then 1 else 0)
  }

  /** From health h, the death handler first runs on the h-th hit (on the
      first, when h is zero) and then on every later hit. */
  lemma {:induction false} DeathsFrom(h: nat, n: nat)
    ensures Deaths(h, n) == if h == 0 then n else if n >= h then n - h + 1 else 0
  {
    if n > 0 {
      DeathsFrom(h, n - 1);
      HitsSaturate(h, n);
    }
  }
}
