// src/core/engine/data_batch.h: stack samples, by value.
module Samples {

  datatype Frame = Frame(address: nat, function_name: string, file_name: string, line_number: nat, module_name: string)

  // Where a sample was taken; no operation here looks inside.
  datatype Origin = Origin(timestamp: int, cpu: nat, off_cpu: bool, duration_ns: nat, kernel_stack_id: int,
      user_stack_id: int)

  datatype Sample = Sample(
    pid: nat,
    tid: nat,
    comm: string,
    kernel_stack: seq<Frame>,
    user_stack: seq<Frame>,
    count: nat,
    origin: Origin)
}
