/**
 * The particle background (class ParticleSystem in script.js): the number of
 * particles, how they are created, and how each frame moves them and wraps
 * them around the canvas edges.
 *
 * JavaScript numbers are modelled as exact reals. Math.random() values and the
 * pointer repulsion (computed with sqrt, atan2, cos and sin) are passed in.
 */
module Particles {

  /** Canvas area, in square pixels, per particle. */
  const Density := 15000

  /** The fixed colour palette. */
  const Palette: seq<string> := ["#ff006e", "#00f5ff", "#8b5cf6", "#39ff14"]

  datatype Particle = Particle(x: real, y: real, size: real, speedX: real, speedY: real,
                               color: string, opacity: real)

  /** The seven values Math.random() returns while one particle is created, in call order. */
  datatype Draws = Draws(x: real, y: real, size: real, speedX: real, speedY: real,
                         color: real, opacity: real)

  /** The displacement the pointer repulsion applies to a particle in one frame (zero when it does not apply). */
  datatype Push = Push(dx: real, dy: real)

  predicate IsUnit(r: real)
  {
    0.0 <= r < 1.0
  }

  predicate ValidDraws(d: Draws)
  {
    IsUnit(d.x) && IsUnit(d.y) && IsUnit(d.size) && IsUnit(d.speedX) &&
    IsUnit(d.speedY) && IsUnit(d.color) && IsUnit(d.opacity)
  }

  predicate InCanvas(p: Particle, width: nat, height: nat)
  {
    0.0 <= p.x <= width as real && 0.0 <= p.y <= height as real
  }

  /** Math.floor(width * height / 15000): the number of particles for a canvas. */
  function ParticleCount(width: nat, height: nat): (n: nat)
    ensures n * Density <= width * height < (n + 1) * Density
  {
    width * height / Density
  }

  lemma MulNonNegative(a: real, b: real)
    requires 0.0 <= a && 0.0 <= b
    ensures 0.0 <= a * b
  {
  }

  /** Math.random() * bound: a random value scaled to [0, bound). */
  function Scale(r: real, bound: nat): (v: real)
    requires IsUnit(r)
    ensures 0.0 <= v <= bound as real
    ensures bound > 0 ==> v < bound as real
  {
    var b := bound as real;
    MulNonNegative(r, b);
    MulNonNegative(1.0 - r, b);
    assert b - r * b == (1.0 - r) * b;
    r * b
  }

  /** Math.floor(r * 4): the palette entry a random value picks. */
  function PaletteIndex(r: real): (k: nat)
    requires IsUnit(r)
    ensures k < |Palette|
  {
    Scale(r, |Palette|).Floor
  }

  /** colors[Math.floor(Math.random() * colors.length)]: the colour a random value picks. */
  function PaletteColor(r: real): (c: string)
    requires IsUnit(r)
    ensures c in Palette
  {
    Palette[PaletteIndex(r)]
  }

  /** The particle created from one set of random draws. */
  function Spawn(d: Draws, width: nat, height: nat): (p: Particle)
    requires ValidDraws(d)
    ensures p.color in Palette
    ensures InCanvas(p, width, height)
    ensures width > 0 ==> p.x < width as real
    ensures height > 0 ==> p.y < height as real
    ensures 1.0 <= p.size < 4.0 && 0.2 <= p.opacity < 0.7
    ensures -0.25 <= p.speedX < 0.25 && -0.25 <= p.speedY < 0.25
  {
    Particle(Scale(d.x, width), Scale(d.y, height), d.size * 3.0 + 1.0, (d.speedX - 0.5) * 0.5, (d.speedY - 0.5) * 0.5,
             PaletteColor(d.color), d.opacity * 0.5 + 0.2)
  }

  /**
   * The two wrap-around comparisons of one coordinate: below 0 it jumps to the
   * far edge, beyond the far edge it jumps to 0.
   */
  function Wrap(v: real, bound: nat): (r: real)
    ensures 0.0 <= r <= bound as real
    ensures 0.0 <= v <= bound as real ==> r == v
    ensures v < 0.0 ==> r == bound as real
    ensures v > bound as real ==> r == 0.0
  {
    var v' := if v < 0.0 then bound as real else v;
    if v' > bound as real then 0.0 else v'
  }

  /** One frame of one particle: repulsion, then its velocity, then wrapping. */
  function Advance(p: Particle, push: Push, width: nat, height: nat): (q: Particle)
    ensures InCanvas(q, width, height)
    ensures q == p.(x := q.x, y := q.y)
    ensures var x := p.x - push.dx + p.speedX; 0.0 <= x <= width as real ==> q.x == x
    ensures var y := p.y - push.dy + p.speedY; 0.0 <= y <= height as real ==> q.y == y
  {
    p.(x := Wrap(p.x - push.dx + p.speedX, width), y := Wrap(p.y - push.dy + p.speedY, height))
  }

  class ParticleSystem {
    /** Canvas size in pixels. */
    var width: nat
    var height: nat
    var particles: seq<Particle>

    ghost predicate Valid()
      reads this
    {
      |particles| == ParticleCount(width, height) &&
      forall i :: 0 <= i < |particles| ==>
        InCanvas(particles[i], width, height) && particles[i].color in Palette
    }

    constructor (innerWidth: nat, innerHeight: nat, draws: seq<Draws>)
      requires |draws| == ParticleCount(innerWidth, innerHeight)
      requires forall i :: 0 <= i < |draws| ==> ValidDraws(draws[i])
      ensures Valid() && width == innerWidth && height == innerHeight
      ensures forall i :: 0 <= i < |particles| ==> particles[i] == Spawn(draws[i], width, height)
    {
      width, height, particles := 0, 0, [];
      new;
      Resize(innerWidth, innerHeight);
      Init(draws);
    }

    /** Fits the canvas to the window. */
    method Resize(innerWidth: nat, innerHeight: nat)
      modifies this
      ensures width == innerWidth && height == innerHeight && particles == old(particles)
    {
      width := innerWidth;
      height := innerHeight;
    }

    /** Discards every particle and creates one per 15000 square pixels of canvas. */
    method Init(draws: seq<Draws>)
      requires |draws| == ParticleCount(width, height)
      requires forall i :: 0 <= i < |draws| ==> ValidDraws(draws[i])
      modifies this
      ensures Valid() && width == old(width) && height == old(height)
      ensures forall i :: 0 <= i < |particles| ==> particles[i] == Spawn(draws[i], width, height)
    {
      var particleCount := ParticleCount(width, height);
      particles := [];
      var i := 0;
      while i < particleCount
        invariant 0 <= i <= particleCount == ParticleCount(width, height)
        invariant width == old(width) && height == old(height)
        invariant |particles| == i
        invariant forall k :: 0 <= k < i ==> particles[k] == Spawn(draws[k], width, height)
      {
        particles := particles + [Spawn(draws[i], width, height)];
        i := i + 1;
      }
    }

    /** The window's resize handler: refit the canvas, then regenerate the particles. */
    method OnResize(innerWidth: nat, innerHeight: nat, draws: seq<Draws>)
      requires |draws| == ParticleCount(innerWidth, innerHeight)
      requires forall i :: 0 <= i < |draws| ==> ValidDraws(draws[i])
      modifies this
      ensures Valid() && width == innerWidth && height == innerHeight
      ensures forall i :: 0 <= i < |particles| ==> particles[i] == Spawn(draws[i], width, height)
    {
      Resize(innerWidth, innerHeight);
      Init(draws);
    }

    /** The position update of one animation frame, one push per particle. */
    method Draw(pushes: seq<Push>)
      requires Valid() && |pushes| == |particles|
      modifies this
      ensures Valid() && width == old(width) && height == old(height)
      ensures |particles| == |old(particles)|
      ensures forall i :: 0 <= i < |particles| ==>
                particles[i] == Advance(old(particles)[i], pushes[i], width, height)
    {
      var i := 0;
      while i < |particles|
        invariant 0 <= i <= |particles| == |old(particles)|
        invariant width == old(width) && height == old(height)
        invariant forall k :: 0 <= k < i ==>
                    particles[k] == Advance(old(particles)[k], pushes[k], width, height)
        invariant forall k :: i <= k < |particles| ==> particles[k] == old(particles)[k]
      {
        var p := particles[i];
        var x := p.x - pushes[i].dx;
        var y := p.y - pushes[i].dy;
        x := x + p.speedX;
        y := y + p.speedY;
        if x < 0.0 { x := width as real; }
        if x > width as real { x := 0.0; }
        if y < 0.0 { y := height as real; }
        if y > height as real { y := 0.0; }
        particles := particles[i := p.(x := x, y := y)];
        i := i + 1;
      }
    }
  }
}
