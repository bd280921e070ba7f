/** The effect's mode enumerations, shared by the effect components and the presets. */
module Modes {

  /** What is drawn behind the vignette. */
  datatype BackgroundMode = COLOR | SKYBOX | CAGE_COLOR | CAGE_SKYBOX | CAGE_ONLY | BLUR

  /** How mask objects shape the vignette. */
  datatype MaskMode = OFF | MASK | WINDOW | PORTAL

  /** Anti-aliasing of the cage render texture. */
  datatype Msaa = AUTO | OFF | X2 | X4 | X8

  /** Number of samples of the background blur. */
  datatype BlurKernel = FIVE | NINE | THIRTEEN

  /** How translation is countered: not at all, in the shader, or by moving the cage. */
  datatype CounterVelocityMode = OFF | SHADER | REAL
}
