/** Choice of the parallel back end
    (watertap/tools/parallel/parallel_manager_factory.py). The run-time
    environment is reduced to whether mpi4py imports and the size of the
    MPI world communicator. */
module ParallelManager {
  import opened Wrappers

  /** The manager `create_parallel_manager` instantiates. An explicitly
      supplied class is named by `cls`. */
  datatype Manager =
    | Explicit(cls: string)
    | Mpi
    | ConcurrentFutures(subprocesses: int)
    | SingleProcess

  datatype Environment = Environment(mpiAvailable: bool, worldSize: int)

  /** `has_mpi_peer_processes`: part of an MPI group of more than one process. */
  predicate HasMpiPeerProcesses(env: Environment)
  {
    env.mpiAvailable && env.worldSize > 1
  }

  /** `should_fan_out`: more than one subprocess requested. */
  predicate ShouldFanOut(numberOfSubprocesses: int)
  {
    numberOfSubprocesses > 1
  }

  /** `create_parallel_manager`: an explicit class wins, then MPI, then
      concurrent futures, then the single-process manager. */
  function CreateParallelManager(cls: Option<string>, env: Environment, numberOfSubprocesses: int): (m: Manager)
    ensures m.Explicit? <==> cls.Some?
    ensures m.Explicit? ==> m.cls == cls.value
    ensures m.Mpi? <==> cls.None? && env.mpiAvailable && env.worldSize > 1
    ensures m.ConcurrentFutures? <==> cls.None? && !(env.mpiAvailable && env.worldSize > 1) && numberOfSubprocesses > 1
    ensures m.ConcurrentFutures? ==> m.subprocesses == numberOfSubprocesses
    ensures m.SingleProcess? <==> cls.None? && !(env.mpiAvailable && env.worldSize > 1) && numberOfSubprocesses <= 1
  {
    if cls.Some? then Explicit(cls.value)
    else if HasMpiPeerProcesses(env) then Mpi
    else if ShouldFanOut(numberOfSubprocesses) then ConcurrentFutures(numberOfSubprocesses)
    else SingleProcess
  }

  /** An explicit class is returned whatever the environment and subprocess count. */
  lemma ExplicitIgnoresEnvironment(c: string, env1: Environment, env2: Environment, n1: int, n2: int)
    ensures CreateParallelManager(Some(c), env1, n1) == CreateParallelManager(Some(c), env2, n2) == Explicit(c)
  {
  }

  /** MPI takes precedence over fan-out: under an MPI group the subprocess
      count is irrelevant. */
  lemma MpiPrecedesFanOut(env: Environment, n1: int, n2: int)
    requires HasMpiPeerProcesses(env)
    ensures CreateParallelManager(None, env, n1) == CreateParallelManager(None, env, n2) == Mpi
  {
  }
}
